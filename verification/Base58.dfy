/** Base58 and its checksummed form, legacy/src/base58.h, over the byte format of big numbers in
    legacy/src/bignum.h. */
module Base58 {
  import opened Wrappers
  import opened Digits

  ghost predicate IsBytes(s: seq<nat>) { IsDigits(256, s) }

  // -------------------------------------------------------------------------
  // Big numbers as bytes: least significant first, the sign in the top bit of the last one
  // -------------------------------------------------------------------------

  function SetVch(vch: seq<nat>): int {
    if vch == [] then 0
    else
      var last := |vch| - 1;
      if vch[last] >= 0x80 then 0 - Value(256, vch[last := vch[last] - 0x80]) else Value(256, vch)
  }

  /** The bytes of a magnitude, with one more if the top bit is taken. */
  function Padded(n: nat): seq<nat> {
    var ds := Of(256, n);
    if ds != [] && ds[|ds| - 1] >= 0x80 then ds + [0] else ds
  }

  function GetVch(n: int): seq<nat> {
    if n >= 0 then Padded(n)
    else
      var ds := Padded(-n);
      if ds == [] then [] else ds[|ds| - 1 := ds[|ds| - 1] + 0x80]
  }

  lemma PaddedIs(n: nat)
    ensures Value(256, Padded(n)) == n && IsBytes(Padded(n))
    ensures n > 0 ==> Padded(n) != [] && Padded(n)[|Padded(n)| - 1] < 0x80
  {
    ValueOf(256, n);
    OfIsDigits(256, n);
    ValueWithZeros(256, Of(256, n), 1);
    assert Zeros(1) == [0];
  }

  /** Every number, negative ones too, comes back from its bytes. */
  lemma SetVchOfGetVch(n: int)
    ensures SetVch(GetVch(n)) == n && IsBytes(GetVch(n))
  {
    if n >= 0 {
      PaddedIs(n);
    } else {
      PaddedIs(-n);
      var ds := Padded(-n);
      assert GetVch(n)[|ds| - 1 := ds[|ds| - 1]] == ds;
    }
  }

  // -------------------------------------------------------------------------
  // Characters
  // -------------------------------------------------------------------------

  /** The alphabet is in ascending order of character codes. */
  function Symbol(d: nat): char
    requires d < 58
  {
    (if d < 9 then d + 49 else if d < 17 then d + 56 else if d < 22 then d + 57
     else if d < 33 then d + 58 else if d < 44 then d + 64 else d + 65) as char
  }

  const ALPHABET: string := "123456789" + "ABCDEFGHJKLMNPQRSTUVWXYZ" + "abcdefghijkmnopqrstuvwxyz"

  lemma AlphabetIs(d: nat)
    requires d < 58
    ensures |ALPHABET| == 58 && ALPHABET[d] == Symbol(d)
  {
  }

  function Find(c: char, from: nat): (d: Option<nat>)
    requires from <= 58
    ensures d.Some? ==> d.value < 58 && Symbol(d.value) == c
    decreases 58 - from
  {
    if from == 58 then None else if Symbol(from) == c then Some(from) else Find(c, from + 1)
  }

  lemma {:induction false} FindSymbol(d: nat, from: nat)
    requires from <= d < 58
    ensures Find(Symbol(d), from) == Some(d)
    decreases d - from
  {
    if from < d {
      FindSymbol(d, from + 1);
    }
  }

  predicate IsSpace(c: char) {
    c == ' ' || 9 <= c as int <= 13
  }

  predicate IsSymbol(c: char) { Find(c, 0).Some? }

  lemma SymbolIsNoSpace(c: char)
    requires IsSymbol(c)
    ensures !IsSpace(c) && c != '\0'
  {
    var d := Find(c, 0).value;
    assert c == Symbol(d);
  }

  function Text(ds: seq<nat>): string
    requires IsDigits(58, ds)
  {
    seq(|ds|, i requires 0 <= i < |ds| => Symbol(ds[i]))
  }

  predicate AllSymbols(s: string) {
    forall i :: 0 <= i < |s| ==> IsSymbol(s[i])
  }

  predicate AllSpace(s: string) {
    forall i :: 0 <= i < |s| ==> IsSpace(s[i])
  }

  function Read(s: string): (ds: seq<nat>)
    requires AllSymbols(s)
    ensures |ds| == |s| && IsDigits(58, ds)
  {
    seq(|s|, i requires 0 <= i < |s| => Find(s[i], 0).value)
  }

  lemma ReadText(ds: seq<nat>)
    requires IsDigits(58, ds)
    ensures AllSymbols(Text(ds)) && Read(Text(ds)) == ds
  {
    forall i | 0 <= i < |ds|
      ensures Find(Text(ds)[i], 0) == Some(ds[i])
    {
      FindSymbol(ds[i], 0);
    }
  }

  lemma TextRead(s: string)
    requires AllSymbols(s)
    ensures Text(Read(s)) == s
  {
  }

  // -------------------------------------------------------------------------
  // Encoding and decoding
  // -------------------------------------------------------------------------

  /** The same number in another base, with as many leading zeros. */
  function Rebase(from: Base, to: Base, s: seq<nat>): seq<nat> {
    Zeros(LeadingZeros(s)) + Reverse(Of(to, BigValue(from, s)))
  }

  lemma RebaseTwice(from: Base, to: Base, s: seq<nat>)
    requires IsDigits(from, s)
    ensures IsDigits(to, Rebase(from, to, s)) && Rebase(to, from, Rebase(from, to, s)) == s
  {
    BigOf(to, LeadingZeros(s), BigValue(from, s));
    BigDigits(from, s);
  }

  function Encode(bytes: seq<nat>): string
    requires IsBytes(bytes)
  {
    RebaseTwice(256, 58, bytes);
    Text(Rebase(256, 58, bytes))
  }

  /** A C string ends at its first NUL. */
  function CStr(s: string): (t: string)
    ensures |t| <= |s| && t == s[..|t|] && '\0' !in t
    ensures |t| < |s| ==> s[|t|] == '\0'
  {
    if s == [] || s[0] == '\0' then [] else [s[0]] + CStr(s[1..])
  }

  function TrimFront(s: string): (t: string)
    ensures |t| <= |s| && t == s[|s| - |t|..] && AllSpace(s[..|s| - |t|]) && (t != [] ==> !IsSpace(t[0]))
  {
    if s != [] && IsSpace(s[0]) then
      var t := TrimFront(s[1..]);
      assert s[..|s| - |t|] == [s[0]] + s[1..][..|s| - 1 - |t|];
      t
    else s
  }

  function TrimBack(s: string): (t: string)
    ensures |t| <= |s| && t == s[..|t|] && AllSpace(s[|t|..]) && (t != [] ==> !IsSpace(t[|t| - 1]))
  {
    if s != [] && IsSpace(s[|s| - 1]) then
      var t := TrimBack(s[..|s| - 1]);
      assert s[|t|..] == s[..|s| - 1][|t|..] + [s[|s| - 1]];
      t
    else s
  }

  function Strip(s: string): string { TrimBack(TrimFront(s)) }

  function Prefix(s: string): (t: string)
    ensures |t| <= |s| && t == s[..|t|] && AllSymbols(t) && (|t| < |s| ==> !IsSymbol(s[|t|]))
  {
    if s != [] && IsSymbol(s[0]) then [s[0]] + Prefix(s[1..]) else []
  }

  function Decode(s: string): Option<seq<nat>> {
    var u := TrimFront(CStr(s));
    var v := Prefix(u);
    if AllSpace(u[|v|..]) then Some(Rebase(58, 256, Read(v))) else None
  }

  lemma {:induction false} TrimBackIsPrefix(u: string, v: string)
    requires |v| <= |u| && v == u[..|v|] && AllSpace(u[|v|..]) && AllSymbols(v)
    ensures TrimBack(u) == v
    decreases |u|
  {
    if |u| > |v| {
      var front := u[..|u| - 1];
      assert u[|v|..][|u| - 1 - |v|] == u[|u| - 1];
      assert front[|v|..] == u[|v|..][..|front| - |v|];
      TrimBackIsPrefix(front, v);
    } else if |v| > 0 {
      SymbolIsNoSpace(v[|v| - 1]);
    }
  }

  lemma {:induction false} PrefixIs(u: string, v: string)
    requires |v| <= |u| && v == u[..|v|] && AllSymbols(v) && (|v| < |u| ==> !IsSymbol(u[|v|]))
    ensures Prefix(u) == v
  {
    if v != [] {
      assert u[0] == v[0];
      PrefixIs(u[1..], v[1..]);
    }
  }

  /** Decoding succeeds exactly when what is left after stripping whitespace is in the alphabet, and gives that. */
  lemma DecodeIs(s: string)
    ensures Decode(s).Some? <==> AllSymbols(Strip(CStr(s)))
    ensures Decode(s).Some? ==> Decode(s).value == Rebase(58, 256, Read(Strip(CStr(s))))
  {
    var u := TrimFront(CStr(s));
    var v := Prefix(u);
    if AllSpace(u[|v|..]) {
      TrimBackIsPrefix(u, v);
    }
    var t := TrimBack(u);
    if AllSymbols(t) {
      if |t| < |u| {
        assert u[|t|] == u[|t|..][0];
        SpaceIsNoSymbol(u[|t|]);
      }
      PrefixIs(u, t);
    }
  }

  lemma SpaceIsNoSymbol(c: char)
    requires IsSpace(c)
    ensures !IsSymbol(c)
  {
    if IsSymbol(c) {
      SymbolIsNoSpace(c);
      assert false;
    }
  }

  lemma {:induction false} CStrOfSymbols(s: string)
    requires AllSymbols(s)
    ensures CStr(s) == s && Strip(s) == s
  {
    var t := CStr(s);
    if |t| < |s| {
      SymbolIsNoSpace(s[|t|]);
    }
    assert t == s;
    var u := TrimFront(s);
    if |u| < |s| {
      assert s[..|s| - |u|][0] == s[0];
      SymbolIsNoSpace(s[0]);
    }
    assert u == s;
    TrimBackIsPrefix(s, s);
  }

  /** Decoding undoes encoding, for every byte string. */
  lemma DecodeInvertsEncode(bytes: seq<nat>)
    requires IsBytes(bytes)
    ensures Decode(Encode(bytes)) == Some(bytes)
  {
    RebaseTwice(256, 58, bytes);
    var ds := Rebase(256, 58, bytes);
    ReadText(ds);
    CStrOfSymbols(Text(ds));
    DecodeIs(Text(ds));
  }

  /** Encoding what was decoded gives the string back, without the whitespace around it. */
  lemma EncodeInvertsDecode(s: string)
    requires Decode(s).Some?
    ensures IsBytes(Decode(s).value) && Encode(Decode(s).value) == Strip(CStr(s))
  {
    DecodeIs(s);
    var t := Strip(CStr(s));
    RebaseTwice(58, 256, Read(t));
    TextRead(t);
  }

  /** The number that digits stand for, the most significant first. */
  function Number(base: nat, s: seq<nat>): nat {
    if s == [] then 0 else Number(base, s[..|s| - 1]) * base + s[|s| - 1]
  }

  lemma {:induction false} BigValueIsNumber(base: Base, s: seq<nat>)
    ensures BigValue(base, s) == Number(base, s)
  {
    if s == [] {
      assert Reverse(s) == [];
    } else {
      var k := |s| - 1;
      BigValueIsNumber(base, s[..k]);
      BigValueAppend(base, s[..k], s[k]);
      assert s == s[..k] + [s[k]];
    }
  }

  /** The text is the same number in base 58, with a 1 in front for every zero byte in front, and no more. */
  lemma EncodeMeans(bytes: seq<nat>)
    requires IsBytes(bytes)
    ensures AllSymbols(Encode(bytes))
    ensures Number(58, Read(Encode(bytes))) == Number(256, bytes)
    ensures LeadingZeros(Read(Encode(bytes))) == LeadingZeros(bytes)
  {
    RebaseTwice(256, 58, bytes);
    ReadText(Rebase(256, 58, bytes));
    BigOf(58, LeadingZeros(bytes), BigValue(256, bytes));
    BigValueIsNumber(58, Rebase(256, 58, bytes));
    BigValueIsNumber(256, bytes);
  }

  /** Space, tab, line feed, vertical tab, form feed and carriage return. */
  lemma SpacesAre(c: char)
    ensures IsSpace(c) <==> c as int in {32, 9, 10, 11, 12, 13}
  {
  }

  /** Small numbers as bytes: nothing for zero, an extra byte where the sign bit is needed. */
  lemma SmallBytes()
    ensures GetVch(0) == [] && GetVch(0x7f) == [0x7f] && GetVch(0x80) == [0x80, 0] && GetVch(0x1234) == [0x34, 0x12]
    ensures GetVch(-1) == [0x81] && GetVch(-0x80) == [0x80, 0x80]
  {
    assert Of(256, 0) == [] && Of(256, 1) == [1] && Of(256, 0x7f) == [0x7f] && Of(256, 0x80) == [0x80];
    assert Of(256, 0x12) == [0x12] && Of(256, 0x1234) == [0x34] + Of(256, 0x12);
  }

  // -------------------------------------------------------------------------
  // With a checksum
  // -------------------------------------------------------------------------

  type Checksum = seq<nat> -> seq<nat>

  /** Any function giving four bytes. */
  ghost predicate IsChecksum(sum: Checksum) {
    forall s: seq<nat> :: |sum(s)| == 4 && IsBytes(sum(s))
  }

  ghost function EncodeCheck(sum: Checksum, bytes: seq<nat>): string
    requires IsChecksum(sum) && IsBytes(bytes)
  {
    Encode(bytes + sum(bytes))
  }

  /** The bytes before a right checksum. */
  function Checked(sum: Checksum, vch: seq<nat>): Option<seq<nat>> {
    if |vch| < 4 then None
    else
      var n := |vch| - 4;
      if sum(vch[..n]) != vch[n..] then None else Some(vch[..n])
  }

  function DecodeCheck(sum: Checksum, s: string): Option<seq<nat>> {
    match Decode(s)
    case None => None
    case Some(vch) => Checked(sum, vch)
  }

  lemma DecodeCheckInvertsEncodeCheck(sum: Checksum, bytes: seq<nat>)
    requires IsChecksum(sum) && IsBytes(bytes)
    ensures DecodeCheck(sum, EncodeCheck(sum, bytes)) == Some(bytes)
  {
    var vch := bytes + sum(bytes);
    DecodeInvertsEncode(vch);
    assert vch[..|bytes|] == bytes && vch[|bytes|..] == sum(bytes);
  }

  lemma EncodeCheckInvertsDecodeCheck(sum: Checksum, s: string)
    requires IsChecksum(sum) && DecodeCheck(sum, s).Some?
    ensures IsBytes(DecodeCheck(sum, s).value) && EncodeCheck(sum, DecodeCheck(sum, s).value) == Strip(CStr(s))
  {
    EncodeInvertsDecode(s);
    SplitOff(sum, Decode(s).value);
  }

  lemma SplitOff(sum: Checksum, vch: seq<nat>)
    requires |vch| >= 4 && IsBytes(vch) && sum(vch[..|vch| - 4]) == vch[|vch| - 4..]
    ensures IsBytes(vch[..|vch| - 4]) && vch[..|vch| - 4] + sum(vch[..|vch| - 4]) == vch
  {
  }

  // -------------------------------------------------------------------------
  // The routines
  // -------------------------------------------------------------------------

  lemma TextAppend(a: seq<nat>, b: seq<nat>)
    requires IsDigits(58, a) && IsDigits(58, b)
    ensures IsDigits(58, a + b) && Text(a + b) == Text(a) + Text(b)
  {
  }

  lemma TextReverse(a: seq<nat>)
    requires IsDigits(58, a)
    ensures IsDigits(58, Reverse(a)) && Text(Reverse(a)) == Reverse(Text(a))
  {
  }

  lemma TextOf(n: nat)
    requires n > 0
    ensures IsDigits(58, Of(58, n)) && IsDigits(58, Of(58, n / 58))
    ensures Text(Of(58, n)) == [Symbol(n % 58)] + Text(Of(58, n / 58))
  {
    OfIsDigits(58, n);
    OfIsDigits(58, n / 58);
    TextAppend([n % 58], Of(58, n / 58));
    assert Text([n % 58]) == [Symbol(n % 58)];
  }

  /** The digits of a number, least significant first. */
  method Symbols(n: nat) returns (str: string)
    ensures IsDigits(58, Of(58, n)) && str == Text(Of(58, n))
  {
    OfIsDigits(58, n);
    str := "";
    var bn := n;
    ghost var whole, rest := Text(Of(58, n)), Text(Of(58, n));
    while bn > 0
      invariant IsDigits(58, Of(58, bn)) && rest == Text(Of(58, bn)) && whole == str + rest
      decreases bn
    {
      TextOf(bn);
      var c := bn % 58;
      str := str + [Symbol(c)];
      bn := bn / 58;
      rest := rest[1..];
    }
  }

  method EncodeBase58(bytes: seq<nat>) returns (str: string)
    requires IsBytes(bytes)
    ensures str == Encode(bytes)
  {
    var vchTmp := Reverse(bytes) + [0];
    ghost var n := BigValue(256, bytes);
    assert [0] == Zeros(1);
    ValueWithZeros(256, Reverse(bytes), 1);
    var bn := SetVch(vchTmp);
    str := Symbols(bn);
    var p := 0;
    while p < |bytes| && bytes[p] == 0
      invariant 0 <= p <= LeadingZeros(bytes) && IsDigits(58, Zeros(p))
      invariant str == Text(Of(58, n)) + Text(Zeros(p))
    {
      assert Zeros(p + 1) == Zeros(p) + [0];
      TextAppend(Zeros(p), [0]);
      assert Text([0]) == [Symbol(0)];
      str := str + [Symbol(0)];
      p := p + 1;
    }
    EncodedBackwards(bytes, n, p, str);
    str := Reverse(str);
  }

  lemma EncodedBackwards(bytes: seq<nat>, n: nat, k: nat, str: string)
    requires IsBytes(bytes) && n == BigValue(256, bytes) && k == LeadingZeros(bytes)
    requires IsDigits(58, Of(58, n)) && IsDigits(58, Zeros(k)) && str == Text(Of(58, n)) + Text(Zeros(k))
    ensures Reverse(str) == Encode(bytes)
  {
    var ds := Of(58, n);
    TextAppend(ds, Zeros(k));
    TextReverse(ds + Zeros(k));
    ReverseAppend(ds, Zeros(k));
    ReverseZeros(k);
  }

  /** What a C program reads at a position of a string: its end is marked by a NUL. */
  function At(t: string, i: nat): char
    requires i <= |t|
  {
    if i < |t| then t[i] else '\0'
  }

  ghost predicate IsCStr(t: string) {
    forall i :: 0 <= i < |t| ==> t[i] != '\0'
  }

  method SkipSpace(t: string, from: nat) returns (i: nat)
    requires from <= |t|
    ensures from <= i <= |t| && AllSpace(t[from..i]) && !IsSpace(At(t, i))
  {
    i := from;
    while IsSpace(At(t, i))
      invariant from <= i <= |t| && AllSpace(t[from..i])
      decreases |t| - i
    {
      assert t[from..i + 1] == t[from..i] + [t[i]];
      i := i + 1;
    }
  }

  /** Nothing but whitespace follows. */
  method OnlySpaceFollows(t: string, p: nat) returns (ok: bool)
    requires p <= |t| && IsCStr(t)
    ensures ok <==> AllSpace(t[p..])
  {
    if At(t, p) == '\0' {
      return true;
    }
    var q := SkipSpace(t, p);
    ok := At(t, q) == '\0';
    if ok {
      assert t[p..] == t[p..q];
    } else {
      assert t[p..][q - p] == t[q];
    }
  }

  lemma {:induction false} TrimFrontIs(t: string, i: nat)
    requires i <= |t| && AllSpace(t[..i]) && (i < |t| ==> !IsSpace(t[i]))
    ensures TrimFront(t) == t[i..]
  {
    if i > 0 {
      assert t[0] == t[..i][0];
      assert t[1..][..i - 1] == t[..i][1..];
      TrimFrontIs(t[1..], i - 1);
      assert t[1..][i - 1..] == t[i..];
    }
  }

  lemma BigValueAppend(base: Base, s: seq<nat>, d: nat)
    ensures BigValue(base, s + [d]) == BigValue(base, s) * base + d
  {
    ReverseAppend(s, [d]);
    assert Reverse([d]) == [d];
    assert ([d] + Reverse(s))[1..] == Reverse(s);
  }

  lemma ReadMore(v: string, c: char)
    requires AllSymbols(v) && IsSymbol(c)
    ensures AllSymbols(v + [c])
    ensures BigValue(58, Read(v + [c])) == BigValue(58, Read(v)) * 58 + Find(c, 0).value
  {
    var d := Find(c, 0).value;
    assert Read(v + [c]) == Read(v) + [d];
    BigValueAppend(58, Read(v), d);
  }

  /** Reads digits from the front of a C string. */
  method ReadDigits(t: string, psz: nat) returns (bn: nat, p: nat)
    requires psz <= |t| && IsCStr(t)
    ensures psz <= p <= |t| && t[psz..p] == Prefix(t[psz..])
    ensures bn == BigValue(58, Read(t[psz..p]))
  {
    bn, p := 0, psz;
    ghost var v := t[psz..p];
    assert Read(v) == [] && Reverse<nat>([]) == [];
    while At(t, p) != '\0'
      invariant psz <= p <= |t| && v == t[psz..p] && AllSymbols(v) && bn == BigValue(58, Read(v))
      decreases |t| - p
    {
      var found := Find(At(t, p), 0);
      if found.None? {
        break;
      }
      ReadMore(v, t[p]);
      v := v + [t[p]];
      bn := bn * 58 + found.value;
      p := p + 1;
    }
    ghost var u := t[psz..];
    assert u[..p - psz] == v;
    assert p < |t| ==> u[|v|] == t[p];
    PrefixIs(u, v);
  }

  /** The bytes of a number, without the sign byte. */
  method Unsigned(n: nat) returns (vch: seq<nat>)
    ensures vch == Of(256, n)
  {
    vch := GetVch(n);
    OfIsDigits(256, n);
    if |vch| >= 2 && vch[|vch| - 1] == 0 && vch[|vch| - 2] >= 0x80 {
      vch := vch[..|vch| - 1];
    }
  }

  lemma LeadingOnes(v: string, k: nat)
    requires AllSymbols(v) && k <= |v| && (forall i :: 0 <= i < k ==> v[i] == Symbol(0)) && (k < |v| ==> v[k] != Symbol(0))
    ensures LeadingZeros(Read(v)) == k
  {
    FindSymbol(0, 0);
    LeadingZerosUnique(Read(v), k);
  }

  method CountOnes(t: string, psz: nat, ghost v: string) returns (k: nat)
    requires psz <= |t| && psz + |v| <= |t| && v == t[psz..psz + |v|] && AllSymbols(v)
    requires psz + |v| < |t| ==> !IsSymbol(t[psz + |v|])
    ensures k == LeadingZeros(Read(v))
  {
    k := 0;
    FindSymbol(0, 0);
    while At(t, psz + k) == Symbol(0)
      invariant k <= |v| && (forall i :: 0 <= i < k ==> v[i] == Symbol(0))
      decreases |t| - k
    {
      k := k + 1;
    }
    assert k < |v| ==> v[k] == t[psz + k];
    LeadingOnes(v, k);
  }

  method DecodeBase58(s: string) returns (ok: bool, vch: seq<nat>)
    ensures ok <==> Decode(s).Some?
    ensures vch == if ok then Decode(s).value else []
  {
    var t := CStr(s);
    var psz := SkipSpace(t, 0);
    var bn, p := ReadDigits(t, psz);
    DecodedAs(s, t, psz, p, t[psz..p]);
    ok, vch := Conclude(t, psz, p, bn, Decode(s));
  }

  /** The digits have been read: only white space may follow. */
  method Conclude(t: string, psz: nat, p: nat, bn: nat, ghost d: Option<seq<nat>>) returns (ok: bool, vch: seq<nat>)
    requires psz <= p <= |t| && IsCStr(t) && AllSymbols(t[psz..p]) && (p < |t| ==> !IsSymbol(t[p]))
    requires bn == BigValue(58, Read(t[psz..p]))
    requires d == if AllSpace(t[p..]) then Some(Rebase(58, 256, Read(t[psz..p]))) else None
    ensures ok <==> d.Some?
    ensures vch == if ok then d.value else []
  {
    vch := [];
    ok := OnlySpaceFollows(t, p);
    if !ok {
      return;
    }
    vch := Assemble(t, psz, bn, t[psz..p]);
  }

  /** The bytes of the number behind as many zero bytes as there are leading ones. */
  method Assemble(t: string, psz: nat, bn: nat, ghost v: string) returns (vch: seq<nat>)
    requires psz <= |t| && psz + |v| <= |t| && v == t[psz..psz + |v|] && AllSymbols(v)
    requires psz + |v| < |t| ==> !IsSymbol(t[psz + |v|])
    requires bn == BigValue(58, Read(v))
    ensures vch == Rebase(58, 256, Read(v))
  {
    var bytes := Unsigned(bn);
    var zeros := CountOnes(t, psz, v);
    vch := Zeros(zeros) + Reverse(bytes);
  }

  lemma DecodedAs(s: string, t: string, psz: nat, p: nat, v: string)
    requires t == CStr(s) && psz <= p <= |t| && AllSpace(t[0..psz]) && (psz < |t| ==> !IsSpace(t[psz]))
    requires v == t[psz..p] == Prefix(t[psz..])
    ensures p < |t| ==> !IsSymbol(t[p])
    ensures Decode(s) == if AllSpace(t[p..]) then Some(Rebase(58, 256, Read(v))) else None
  {
    assert t[..psz] == t[0..psz];
    TrimFrontIs(t, psz);
    var u := t[psz..];
    assert u[|v|..] == t[p..];
    assert p < |t| ==> u[|v|] == t[p];
  }

  method EncodeBase58Check(sum: Checksum, bytes: seq<nat>) returns (str: string)
    requires IsChecksum(sum) && IsBytes(bytes)
    ensures str == EncodeCheck(sum, bytes)
  {
    str := EncodeBase58(bytes + sum(bytes));
  }

  method DecodeBase58Check(sum: Checksum, s: string) returns (ok: bool, vch: seq<nat>)
    ensures ok <==> DecodeCheck(sum, s).Some?
    ensures vch == if ok then DecodeCheck(sum, s).value else []
  {
    ok, vch := DecodeBase58(s);
    if ok {
      ok, vch := DropChecksum(sum, vch);
    }
  }

  method DropChecksum(sum: Checksum, vch: seq<nat>) returns (ok: bool, rest: seq<nat>)
    ensures ok <==> Checked(sum, vch).Some?
    ensures rest == if ok then Checked(sum, vch).value else []
  {
    if |vch| < 4 {
      return false, [];
    }
    var n := |vch| - 4;
    if sum(vch[..n]) != vch[n..] {
      return false, [];
    }
    return true, vch[..n];
  }
}
