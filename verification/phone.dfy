/** Phone-number strings: `formatPhoneNumber` (util/formatPhoneNumber.js)
    and the `normalizePhone` helper that both api/inbound_call.js and
    api/connect.js declare, with the `call:` key derived from it. */
module Phone {
  import opened Base

  /** The characters JavaScript's regular-expression class `\s` matches:
      ECMAScript white space and line terminators. */
  predicate IsSpace(c: char)
  {
    c == '\t' || c == '\n' || c == '\U{B}' || c == '\U{C}' || c == '\r' || c == ' '
    || c == '\U{A0}' || c == '\U{1680}' || ('\U{2000}' <= c <= '\U{200A}')
    || c == '\U{2028}' || c == '\U{2029}' || c == '\U{202F}' || c == '\U{205F}'
    || c == '\U{3000}' || c == '\U{FEFF}'
  }

  /** The characters the pattern `[\s()\-]` removes. */
  predicate IsSeparator(c: char)
  {
    IsSpace(c) || c == '(' || c == ')' || c == '-'
  }

  predicate IsKept(c: char)
  {
    !IsSeparator(c)
  }

  /** The characters the pattern `[^\d+]` spares: ASCII digits and `+`. */
  predicate IsDialChar(c: char)
  {
    ('0' <= c <= '9') || c == '+'
  }

  /** `formatPhoneNumber`: `null` for a falsy argument, otherwise `+1`
      followed by the argument with every separator removed. */
  function FormatPhoneNumber(phone: Option<string>): (r: Option<string>)
    ensures r.None? <==> !Truthy(phone)
    ensures r.Some? ==> StartsWith(r.value, "+1")
    ensures r.Some? ==> forall i :: 2 <= i < |r.value| ==> !IsSeparator(r.value[i])
  {
    if !Truthy(phone) then None else Some("+1" + Filter(phone.value, IsKept))
  }

  /** What follows the `+1`: every non-separator of the input, in order and
      with its multiplicity, and nothing else. */
  lemma FormatKeepsOthers(s: string)
    requires s != ""
    ensures var r := FormatPhoneNumber(Some(s)).value;
      && IsSubsequence(r[2..], s)
      && (forall c :: multiset(r[2..])[c] == if IsSeparator(c) then 0 else multiset(s)[c])
      && |r| == 2 + |s| - |Filter(s, IsSeparator)|
  {
    var r := FormatPhoneNumber(Some(s)).value;
    assert r[2..] == Filter(s, IsKept);
    FilterIsSubsequence(s, IsKept);
    FilterCounts(s, IsKept);
    KeptPlusSeparators(s);
  }

  /** Every character is either kept or a separator. */
  lemma {:induction false} KeptPlusSeparators(s: string)
    ensures |Filter(s, IsKept)| + |Filter(s, IsSeparator)| == |s|
  {
    if s != [] {
      KeptPlusSeparators(s[1..]);
    }
  }

  /** There is no country-code detection: formatting an already formatted
      number prefixes a second `+1`, so the function is not idempotent. */
  lemma FormatAddsSecondPrefix(s: string)
    requires s != ""
    ensures FormatPhoneNumber(FormatPhoneNumber(Some(s))).value == "+1" + FormatPhoneNumber(Some(s)).value
    ensures FormatPhoneNumber(FormatPhoneNumber(Some(s))) != FormatPhoneNumber(Some(s))
  {
    var once := FormatPhoneNumber(Some(s)).value;
    var cleaned := Filter(s, IsKept);
    assert once == "+1" + cleaned;
    FilterConcat("+1", cleaned, IsKept);
    FilterKeepsAll("+1", IsKept);
    FilterIdempotent(s, IsKept);
  }

  /** No input is left as it is: formatting always changes a phone, even
      one that already starts `+1`. */
  lemma FormatHasNoFixedPoint(s: string)
    requires s != ""
    ensures FormatPhoneNumber(Some(s)).value != s
  {
    PrefixedCleanDiffers(s);
  }

  /** If `s` were `+1` followed by its own cleaned form `c`, then `c`,
      being cleaned, would be `+1` followed by its cleaned form too: the
      same equation for a shorter string, down to a contradiction. */
  lemma {:induction false} PrefixedCleanDiffers(s: string)
    ensures "+1" + Filter(s, IsKept) != s
    decreases |s|
  {
    var c := Filter(s, IsKept);
    if "+1" + c == s {
      assert c == "+1" + Filter(c, IsKept) by {
        FilterConcat("+1", c, IsKept);
        FilterKeepsAll("+1", IsKept);
      }
      PrefixedCleanDiffers(c);
      assert false;
    }
  }

  /** A non-empty input made only of separators formats to exactly `+1`. */
  lemma FormatOnlySeparators(s: string)
    requires s != ""
    requires forall i :: 0 <= i < |s| ==> IsSeparator(s[i])
    ensures FormatPhoneNumber(Some(s)) == Some("+1")
  {
    FilterDropsAll(s, IsKept);
    assert "+1" + Filter(s, IsKept) == "+1";
  }

  lemma FormatSeparatorsExample()
    ensures FormatPhoneNumber(Some(" ( - ) ")) == Some("+1")
  {
    FormatOnlySeparators(" ( - ) ");
  }

  /** `normalizePhone`: the digits and `+` signs of the number. */
  function NormalizePhone(number: string): (r: string)
    ensures forall i :: 0 <= i < |r| ==> IsDialChar(r[i])
  {
    Filter(number, IsDialChar)
  }

  /** Normalizing keeps every digit and `+` in its original order and
      with its multiplicity, and drops everything else. */
  lemma NormalizeKeepsDialChars(number: string)
    ensures IsSubsequence(NormalizePhone(number), number)
    ensures forall c :: multiset(NormalizePhone(number))[c] == if IsDialChar(c) then multiset(number)[c] else 0
  {
    FilterIsSubsequence(number, IsDialChar);
    FilterCounts(number, IsDialChar);
  }

  lemma NormalizeIdempotent(number: string)
    ensures NormalizePhone(NormalizePhone(number)) == NormalizePhone(number)
  {
    FilterIdempotent(number, IsDialChar);
  }

  /** A number made only of digits and `+` is already normalized, and
      only such a number is. */
  lemma NormalizedIffDialChars(number: string)
    ensures NormalizePhone(number) == number <==> forall i :: 0 <= i < |number| ==> IsDialChar(number[i])
  {
    if forall i :: 0 <= i < |number| ==> IsDialChar(number[i]) {
      FilterKeepsAll(number, IsDialChar);
    }
  }

  /** The store key correlating a caller with its inbound call. */
  function CallKey(caller: string): string
  {
    "call:" + NormalizePhone(caller)
  }

  /** Round trip of the correlation: two caller strings reach the same
      `call:` key exactly when they have the same digits and `+` signs. */
  lemma CallKeyMatches(a: string, b: string)
    ensures CallKey(a) == CallKey(b) <==> NormalizePhone(a) == NormalizePhone(b)
  {
    if CallKey(a) == CallKey(b) {
      assert NormalizePhone(a) == CallKey(a)[5..];
      assert NormalizePhone(b) == CallKey(b)[5..];
    }
  }
}
