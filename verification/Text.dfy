/** The helpers every module relies on: trimming, case folding, 64-bit integers, and the
    decimal and boolean codecs used by the chain headers. Characters are ASCII;
    bytes outside it fold to themselves. */
module Text {
  import opened Wrappers

  predicate IsSpace(c: char) {
    c == ' ' || ('\t' <= c && c <= '\r')
  }

  function TrimLeft(s: string): (t: string)
    ensures |t| <= |s| && t == s[|s| - |t|..]
    ensures t == "" || !IsSpace(t[0])
  {
    if s != "" && IsSpace(s[0]) then TrimLeft(s[1..]) else s
  }

  function TrimRight(s: string): (t: string)
    ensures |t| <= |s| && t == s[..|t|]
    ensures t == "" || !IsSpace(t[|t| - 1])
  {
    if s != "" && IsSpace(s[|s| - 1]) then TrimRight(s[..|s| - 1]) else s
  }

  /** strings.TrimSpace. */
  function Trim(s: string): (t: string)
    ensures t == "" || (!IsSpace(t[0]) && !IsSpace(t[|t| - 1]))
  {
    TrimRight(TrimLeft(s))
  }

  lemma TrimOfTrimmed(t: string)
    requires t == "" || (!IsSpace(t[0]) && !IsSpace(t[|t| - 1]))
    ensures Trim(t) == t
  {
  }

  lemma TrimIdempotent(s: string)
    ensures Trim(Trim(s)) == Trim(s)
  {
    TrimOfTrimmed(Trim(s));
  }

  function LowerChar(c: char): char {
    if 'A' <= c <= 'Z' then c - 'A' + 'a' else c
  }

  /** strings.ToLower. */
  function Lower(s: string): (t: string)
    ensures |t| == |s| && forall i :: 0 <= i < |s| ==> t[i] == LowerChar(s[i])
  {
    seq(|s|, i requires 0 <= i < |s| => LowerChar(s[i]))
  }

  function UpperChar(c: char): char {
    if 'a' <= c <= 'z' then c - 'a' + 'A' else c
  }

  /** strings.ToUpper. */
  function Upper(s: string): (t: string)
    ensures |t| == |s| && forall i :: 0 <= i < |s| ==> t[i] == UpperChar(s[i])
  {
    seq(|s|, i requires 0 <= i < |s| => UpperChar(s[i]))
  }

  /** strings.EqualFold. */
  predicate EqualFold(a: string, b: string) {
    Lower(a) == Lower(b)
  }

  // ----- what trimming and folding mean -----

  /** Space, tab, line feed, vertical tab, form feed, carriage return. */
  predicate Blank(c: char) {
    c as int in {32, 9, 10, 11, 12, 13}
  }

  lemma SpaceExactly(c: char)
    ensures IsSpace(c) <==> Blank(c)
  {
  }

  predicate AllBlank(s: string) {
    forall i :: 0 <= i < |s| ==> Blank(s[i])
  }

  lemma {:induction false} TrimLeftExactly(s: string)
    ensures AllBlank(s[..|s| - |TrimLeft(s)|])
  {
    if s != "" && IsSpace(s[0]) {
      TrimLeftExactly(s[1..]);
      var n := |s| - |TrimLeft(s)|;
      assert s[..n] == [s[0]] + s[1..][..n - 1];
    }
  }

  lemma {:induction false} TrimRightExactly(s: string)
    ensures AllBlank(s[|TrimRight(s)|..])
  {
    if s != "" && IsSpace(s[|s| - 1]) {
      var n := |s| - 1;
      TrimRightExactly(s[..n]);
      assert s[|TrimRight(s)|..] == s[..n][|TrimRight(s)|..] + [s[n]];
    }
  }

  /** Trimming cuts a text down to the part between its first and its last character that is
      not blank. */
  lemma TrimExactly(s: string)
    ensures exists i, j ::
      0 <= i <= j <= |s| && AllBlank(s[..i]) && AllBlank(s[j..]) && Trim(s) == s[i..j]
    ensures Trim(s) == "" || (!Blank(Trim(s)[0]) && !Blank(Trim(s)[|Trim(s)| - 1]))
  {
    hide TrimLeft, TrimRight, AllBlank, Blank, IsSpace;
    TrimLeftExactly(s);
    TrimRightExactly(TrimLeft(s));
    if Trim(s) != "" {
      SpaceExactly(Trim(s)[0]);
      SpaceExactly(Trim(s)[|Trim(s)| - 1]);
    }
    var i := |s| - |TrimLeft(s)|;
    var j := i + |Trim(s)|;
    assert s[i..] == TrimLeft(s) && s[j..] == TrimLeft(s)[|Trim(s)|..];
    assert Trim(s) == s[i..j];
  }

  /** The same character, or the two cases of one letter. */
  predicate SameLetter(c: char, d: char) {
    || c == d
    || ('A' <= c <= 'Z' && d as int == c as int + 32)
    || ('A' <= d <= 'Z' && c as int == d as int + 32)
  }

  predicate EqualUpToCase(a: string, b: string) {
    |a| == |b| && forall i :: 0 <= i < |a| ==> SameLetter(a[i], b[i])
  }

  lemma FoldExactly(a: string, b: string)
    ensures EqualFold(a, b) <==> EqualUpToCase(a, b)
  {
    if EqualFold(a, b) {
      forall i | 0 <= i < |a|
        ensures SameLetter(a[i], b[i])
      {
        assert Lower(a)[i] == Lower(b)[i];
      }
    }
    if EqualUpToCase(a, b) {
      assert Lower(a) == Lower(b);
    }
  }

  /** Upper-casing keeps every letter and leaves no lower-case one. */
  lemma UpperExactly(s: string)
    ensures EqualUpToCase(Upper(s), s)
    ensures forall i :: 0 <= i < |s| ==> !('a' <= Upper(s)[i] <= 'z')
  {
  }

  lemma UpperKeepsFold(a: string, b: string)
    ensures EqualUpToCase(a, Upper(b)) <==> EqualUpToCase(a, b)
  {
  }

  /** The first text that is not empty. */
  function OrText(first: string, second: string): string {
    if first != "" then first else second
  }

  /** The comparison key of a logical name. */
  function NameKey(name: string): string {
    Lower(Trim(name))
  }

  // ----- boolean and decimal codecs -----

  /** strconv.FormatBool. */
  function FormatBool(b: bool): string {
    if b then "true" else "false"
  }

  /** parseBoolHeader. */
  predicate ParseBoolHeader(value: string) {
    EqualFold(Trim(value), "true")
  }

  /** A flag is set exactly by the word true, in any case and with blanks around it. */
  lemma BoolHeaderExactly(value: string)
    ensures ParseBoolHeader(value) <==> EqualUpToCase(Trim(value), "true")
  {
    FoldExactly(Trim(value), "true");
    hide Trim;
  }

  lemma BoolHeaderRoundTrip(b: bool)
    ensures ParseBoolHeader(FormatBool(b)) == b
  {
    TrimOfTrimmed(FormatBool(b));
    assert Lower("true") == "true";
    if !b {
      assert |Lower("false")| == 5;
    }
  }

  const MIN_INT64: int := -0x8000_0000_0000_0000
  const MAX_INT64: int := 0x7fff_ffff_ffff_ffff

  predicate IsInt64(n: int) {
    MIN_INT64 <= n <= MAX_INT64
  }

  /** What a 64-bit register holds of a result. */
  function Wrap64(n: int): (w: int)
    ensures IsInt64(w) && (w - n) % 0x1_0000_0000_0000_0000 == 0 && (IsInt64(n) ==> w == n)
  {
    (n - MIN_INT64) % 0x1_0000_0000_0000_0000 + MIN_INT64
  }

  function Min(a: int, b: int): int {
    if a < b then a else b
  }

  predicate IsDigit(c: char) {
    '0' <= c <= '9'
  }

  predicate AllDigits(s: string) {
    forall i :: 0 <= i < |s| ==> IsDigit(s[i])
  }

  function DigitsOf(n: nat): (s: string)
    ensures s != "" && AllDigits(s)
  {
    var last := (n % 10) as char + '0';
    if n < 10 then [last] else DigitsOf(n / 10) + [last]
  }

  function ValueOf(s: string): nat
    requires AllDigits(s)
  {
    if s == "" then 0
    else ValueOf(s[..|s| - 1]) * 10 + (s[|s| - 1] - '0') as nat
  }

  lemma {:induction false} ValueOfDigits(n: nat)
    ensures ValueOf(DigitsOf(n)) == n
  {
    if n >= 10 {
      ValueOfDigits(n / 10);
      var s := DigitsOf(n);
      assert s[..|s| - 1] == DigitsOf(n / 10);
    }
  }

  /** strconv.FormatInt in base 10. */
  function FormatInt(n: int): string {
    if n < 0 then "-" + DigitsOf(-n) else DigitsOf(n)
  }

  /** strconv.ParseInt in base 10 for 64 bits: an optional sign, at least one
      digit, nothing else, and a value that fits. */
  function ParseInt(s: string): Option<int> {
    var signed := s != "" && (s[0] == '-' || s[0] == '+');
    var digits := if signed then s[1..] else s;
    if digits == "" || !AllDigits(digits) then None
    else
      var n: int := if signed && s[0] == '-' then -(ValueOf(digits) as int) else ValueOf(digits);
      if IsInt64(n) then Some(n) else None
  }

  lemma FormatIsTrimmed(n: int)
    ensures Trim(FormatInt(n)) == FormatInt(n)
  {
    hide DigitsOf;
    TrimOfTrimmed(FormatInt(n));
  }

  lemma ParseOfFormat(n: int)
    ensures ParseInt(Trim(FormatInt(n))) == if IsInt64(n) then Some(n) else None
  {
    FormatIsTrimmed(n);
    hide DigitsOf, ValueOf, Trim;
    var s := FormatInt(n);
    if n < 0 {
      ValueOfDigits(-n);
      assert s[0] == '-' && s[1..] == DigitsOf(-n);
    } else {
      ValueOfDigits(n);
      assert s == DigitsOf(n) && IsDigit(s[0]);
    }
  }

  /** Only an optionally signed string of digits whose value fits is a number, and every such
      string is one. */
  lemma ParsesNumbers(s: string)
    ensures ParseInt(s).Some? ==>
      && s != "" && IsInt64(ParseInt(s).value)
      && (forall i :: 0 < i < |s| ==> '0' <= s[i] <= '9')
      && ('0' <= s[0] <= '9' || ((s[0] == '-' || s[0] == '+') && |s| > 1))
    ensures s != "" && AllDigits(s) && IsInt64(ValueOf(s)) ==>
      ParseInt(s) == Some(ValueOf(s)) && ParseInt("+" + s) == Some(ValueOf(s))
        && ParseInt("-" + s) == Some(-(ValueOf(s) as int))
  {
    hide ValueOf;
    assert ("+" + s)[1..] == s && ("-" + s)[1..] == s;
    if ParseInt(s).Some? {
      var digits := if s[0] == '-' || s[0] == '+' then s[1..] else s;
      assert AllDigits(digits);
      forall i | 0 < i < |s|
        ensures '0' <= s[i] <= '9'
      {
        assert IsDigit(if |digits| < |s| then digits[i - 1] else digits[i]);
      }
    }
  }
}
