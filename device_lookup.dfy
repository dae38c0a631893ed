/**
 * The string part of `get_device_by_name_or_pk`: whether a reference names a device or
 * gives its primary key as "{pk}", and the key text that is then looked up.
 */
module DeviceLookup {
  import opened Decimal

  /** How the device is looked up: by primary-key text or by name. */
  datatype DeviceKey = ByPk(pk: string) | ByName(name: string)

  /** Length of the run of digits in `s` starting at index `i`. */
  function DigitRun(s: string, i: nat): (n: nat)
    requires i <= |s|
    ensures i + n <= |s|
    ensures forall k :: i <= k < i + n ==> IsDigit(s[k])
    ensures i + n < |s| ==> !IsDigit(s[i + n])
    decreases |s| - i
  {
    if i < |s| && IsDigit(s[i]) then 1 + DigitRun(s, i + 1) else 0
  }

  /**
   * `re.match(r'{\d+\}', s)`: `s` starts with '{', one or more digits and '}'; anything may
   * follow, since `re.match` anchors only at the start. `\d` is read as the ASCII digits.
   */
  predicate MatchesPkPrefix(s: string) {
    && |s| > 0 && s[0] == '{'
    && var n := DigitRun(s, 1);
       n >= 1 && n + 1 < |s| && s[n + 1] == '}'
  }

  /** The pattern's meaning, with its digit count `k` chosen freely as regular-expression matching does. */
  ghost predicate PkPrefixWith(s: string, k: nat) {
    k >= 1 && k + 1 < |s| && s[0] == '{' && AllDigits(s[1..k + 1]) && s[k + 1] == '}'
  }

  /** The greedy test above accepts exactly the strings the pattern matches at their start. */
  lemma MatchesPkPrefixMeaning(s: string)
    ensures MatchesPkPrefix(s) <==> exists k :: PkPrefixWith(s, k)
  {
    if MatchesPkPrefix(s) {
      var n := DigitRun(s, 1);
      var digits := s[1..n + 1];
      assert forall j :: 0 <= j < n ==> digits[j] == s[1 + j];
      assert PkPrefixWith(s, n);
    }
    if k :| PkPrefixWith(s, k) {
      var n := DigitRun(s, 1);
      assert forall j :: 1 <= j <= k ==> IsDigit(s[1..k + 1][j - 1]) && s[j] == s[1..k + 1][j - 1];
      assert n >= k;
      assert !IsDigit(s[k + 1]);
      assert n == k;
    }
  }

  predicate IsBrace(c: char) {
    c == '{' || c == '}'
  }

  /** Number of leading braces of `s`. */
  function LeadingBraces(s: string): (i: nat)
    ensures i <= |s|
    ensures forall k :: 0 <= k < i ==> IsBrace(s[k])
    ensures i < |s| ==> !IsBrace(s[i])
  {
    if s != [] && IsBrace(s[0]) then 1 + LeadingBraces(s[1..]) else 0
  }

  /** Number of trailing braces of `s`. */
  function TrailingBraces(s: string): (i: nat)
    ensures i <= |s|
    ensures forall k :: |s| - i <= k < |s| ==> IsBrace(s[k])
    ensures i < |s| ==> !IsBrace(s[|s| - 1 - i])
  {
    if s != [] && IsBrace(s[|s| - 1]) then 1 + TrailingBraces(s[..|s| - 1]) else 0
  }

  /** Where `s.strip('{}')` cuts `s` at its end: before the trailing braces, but never before the leading ones. */
  function StripEnd(s: string): (j: nat)
    ensures LeadingBraces(s) <= j <= |s|
    ensures forall k :: j <= k < |s| ==> IsBrace(s[k])
    ensures LeadingBraces(s) < j ==> !IsBrace(s[j - 1])
  {
    var i := LeadingBraces(s);
    if i == |s| then i
    else
      assert !IsBrace(s[i]);
      |s| - TrailingBraces(s)
  }

  /**
   * `s.strip('{}')`: `s` with every leading and every trailing '{' or '}' removed. The result
   * is the slice of `s` between the two runs of braces and neither begins nor ends with one.
   */
  function StripBraces(s: string): (r: string)
    ensures s == s[..LeadingBraces(s)] + r + s[StripEnd(s)..]
    ensures r != [] ==> !IsBrace(r[0]) && !IsBrace(r[|r| - 1])
  {
    var i, j := LeadingBraces(s), StripEnd(s);
    assert s == s[..i] + s[i..j] + s[j..];
    s[i..j]
  }

  /** `get_device_by_name_or_pk` as written: a prefix match is taken as a primary key. */
  function ClassifyAsWritten(name: string): DeviceKey {
    if MatchesPkPrefix(name) then ByPk(StripBraces(name)) else ByName(name)
  }

  /** On a prefix match, `strip('{}')` removes only the leading '{' and cuts after the digits. */
  lemma StripBoundsOfPrefixMatch(name: string)
    requires MatchesPkPrefix(name)
    ensures LeadingBraces(name) == 1 && DigitRun(name, 1) + 1 <= StripEnd(name)
  {
    assert !IsBrace(name[1]);
    assert !IsBrace(name[DigitRun(name, 1)]);
  }

  lemma SlicePrefix(s: string, a: nat, b: nat, c: nat)
    requires a <= b <= c <= |s|
    ensures s[a..b] <= s[a..c]
  {
    assert s[a..c][..b - a] == s[a..b];
  }

  lemma DigitRunAllDigits(s: string, i: nat)
    requires i <= |s|
    ensures AllDigits(s[i..i + DigitRun(s, i)])
  {
    var digits := s[i..i + DigitRun(s, i)];
    assert forall j :: 0 <= j < |digits| ==> digits[j] == s[i + j];
  }

  /** As written, a prefix-matched reference is looked up by a key that begins with its digits. */
  lemma AsWrittenKeyStartsWithDigits(name: string)
    requires MatchesPkPrefix(name)
    ensures var n := DigitRun(name, 1);
      AllDigits(name[1..n + 1]) && name[1..n + 1] <= StripBraces(name)
  {
    StripBoundsOfPrefixMatch(name);
    DigitRunAllDigits(name, 1);
    SlicePrefix(name, 1, DigitRun(name, 1) + 1, StripEnd(name));
  }

  /**
   * What the code as written looks up: by primary key exactly when the pattern matches at the
   * start of the reference, and then by a key that begins with the matched digits (followed
   * by whatever text came after the '}', less its trailing braces); otherwise by the
   * unchanged name.
   */
  lemma ClassifyAsWrittenMeaning(name: string)
    ensures ClassifyAsWritten(name).ByPk? <==> exists k :: PkPrefixWith(name, k)
    ensures ClassifyAsWritten(name).ByPk? ==>
      var n := DigitRun(name, 1);
      n >= 1 && AllDigits(name[1..n + 1]) && name[1..n + 1] <= ClassifyAsWritten(name).pk
    ensures ClassifyAsWritten(name).ByName? ==> ClassifyAsWritten(name).name == name
  {
    MatchesPkPrefixMeaning(name);
    if MatchesPkPrefix(name) {
      AsWrittenKeyStartsWithDigits(name);
    }
  }

  /** The whole reference is '{', one or more digits, '}'. */
  predicate IsPkReference(s: string) {
    |s| >= 3 && s[0] == '{' && s[|s| - 1] == '}' && AllDigits(s[1..|s| - 1])
  }

  /**
   * The intended lookup: "{pk}" exactly gives a key of digits only; any other text is a name.
   */
  function Classify(name: string): (r: DeviceKey)
    ensures r.ByPk? <==> IsPkReference(name)
    ensures r.ByPk? ==> |r.pk| > 0 && AllDigits(r.pk) && name == "{" + r.pk + "}"
    ensures r.ByName? ==> r.name == name
  {
    if IsPkReference(name) then ByPk(name[1..|name| - 1]) else ByName(name)
  }

  /** The primary-key reference to `pk` is read back as that key. */
  lemma ClassifyPkReference(pk: nat)
    ensures Classify("{" + NatToString(pk) + "}") == ByPk(NatToString(pk))
  {
    var s := "{" + NatToString(pk) + "}";
    assert s[1..|s| - 1] == NatToString(pk);
  }

  /** A text that does not begin with '{' is always a device name. */
  lemma PlainNameIsName(name: string)
    requires name == [] || name[0] != '{'
    ensures Classify(name) == ByName(name) && ClassifyAsWritten(name) == ByName(name)
  {
  }

  /** On whole "{digits}" references the code as written and the intended lookup agree. */
  lemma AsWrittenAgreesOnPkReferences(name: string)
    requires IsPkReference(name)
    ensures ClassifyAsWritten(name) == Classify(name)
  {
    var digits := name[1..|name| - 1];
    assert forall j :: 1 <= j < |name| - 1 ==> name[j] == digits[j - 1];
    assert DigitRun(name, 1) == |name| - 2;
    assert LeadingBraces(name) == 1;
    assert TrailingBraces(name) == 1;
  }

  /**
   * The discrepancy: "{12}x" passes the prefix match, so it is looked up by primary key
   * "12}x", which is not a number, instead of by the name "{12}x".
   */
  lemma PrefixMatchMisreadsName()
    ensures ClassifyAsWritten("{12}x") == ByPk("12}x")
    ensures Classify("{12}x") == ByName("{12}x")
    ensures !AllDigits("12}x")
  {
    var s := "{12}x";
    assert DigitRun(s, 3) == 0;
    assert DigitRun(s, 1) == 2;
    assert LeadingBraces(s) == 1;
    assert TrailingBraces(s) == 0;
    assert !IsDigit(s[1..|s| - 1][2]);
  }
}
