/**
 * Best-effort recovery of a JSON value from a language-model reply
 * (`extract_json_from_response`): a strict decode of the whole text, then a
 * decode of the first span matched by the regular expression
 * `\{.*\}|\[.*\]` searched with DOTALL. The decoder itself (`json.loads`) is
 * an opaque parameter.
 */
module JsonExtraction {
  import opened Optional
  import opened JsonValue

  /** Strict decoding: the decoded value, or None where `json.loads` raises. */
  type Decoder = string -> Option<Json>

  /** The bracket that closes the one opening at `open`. */
  function CloserOf(open: char): char
  {
    if open == '{' then '}' else ']'
  }

  /** Index holding `c` with nothing equal to `c` after it, or -1 when `c` is absent. */
  function LastIndex(s: string, c: char): (r: int)
    ensures -1 <= r < |s|
    ensures r >= 0 ==> s[r] == c
    ensures forall k :: r < k < |s| ==> s[k] != c
    decreases |s|
  {
    if s == [] then -1
    else if s[|s| - 1] == c then |s| - 1
    else LastIndex(s[..|s| - 1], c)
  }

  /** The regular expression can match starting at `i`: an opening bracket there
      with its closing bracket somewhere after it. */
  ghost predicate IsSpanStart(s: string, i: int)
  {
    0 <= i < |s| && (s[i] == '{' || s[i] == '[') &&
    exists j :: i < j < |s| && s[j] == CloserOf(s[i])
  }

  /** The span `s[b..e]` the search reports: it opens at `b`, which is the
      leftmost possible start at or after `from`, and ends just after the LAST
      matching closer (the pattern is greedy and `.` crosses newlines). */
  ghost predicate IsFoundSpan(s: string, from: nat, b: nat, e: nat)
  {
    from <= b < e <= |s| && IsSpanStart(s, b) &&
    (forall k :: from <= k < b ==> !IsSpanStart(s, k)) &&
    s[e - 1] == CloserOf(s[b]) && b < e - 1 &&
    (forall k :: e <= k < |s| ==> s[k] != CloserOf(s[b]))
  }

  /** The search `re.search(r'\{.*\}|\[.*\]', s, re.DOTALL)` from index `from`. */
  function FindSpanFrom(s: string, from: nat): (r: Option<(nat, nat)>)
    ensures r.None? <==> forall k :: from <= k < |s| ==> !IsSpanStart(s, k)
    ensures r.Some? ==> IsFoundSpan(s, from, r.value.0, r.value.1)
    decreases |s| - from
  {
    if from >= |s| then None
    else if (s[from] == '{' || s[from] == '[') && LastIndex(s, CloserOf(s[from])) > from then
      var last := LastIndex(s, CloserOf(s[from]));
      assert from < last < |s| && s[last] == CloserOf(s[from]);
      assert IsSpanStart(s, from);
      Some((from, last + 1))
    else
      FindSpanFrom(s, from + 1)
  }

  function FindSpan(s: string): Option<(nat, nat)>
  {
    FindSpanFrom(s, 0)
  }

  /** `extract_json_from_response` on a present reply. */
  function ExtractJson(decode: Decoder, text: string): Option<Json>
  {
    match decode(text)
    case Some(v) => Some(v)
    case None =>
      match FindSpan(text)
      case None => None
      case Some(span) => decode(text[span.0..span.1])
  }

  /** A reply that decodes as a whole is returned as decoded. */
  lemma ExtractWhole(decode: Decoder, text: string)
    requires decode(text).Some?
    ensures ExtractJson(decode, text) == decode(text)
  {
  }

  /** Otherwise the result is the decoding of the leftmost opening bracket up to the
      last matching closer after it (None when that decoding fails). */
  lemma ExtractFromSpan(decode: Decoder, text: string, b: nat, e: nat)
    requires decode(text).None?
    requires IsFoundSpan(text, 0, b, e)
    ensures ExtractJson(decode, text) == decode(text[b..e])
  {
  }

  /** With no opening bracket followed by its closer, and no strict decode, the result is None. */
  lemma ExtractNothing(decode: Decoder, text: string)
    requires decode(text).None?
    requires forall k :: 0 <= k < |text| ==> !IsSpanStart(text, k)
    ensures ExtractJson(decode, text) == None
  {
  }

  /** The search is positional: "[1, {2}]" yields the whole array, not the inner object. */
  lemma LeftmostBracketWins()
    ensures FindSpan("[1, {2}]") == Some((0, 8))
  {
    var s := "[1, {2}]";
    assert s[7] == ']';
    assert IsSpanStart(s, 0);
    var r := FindSpan(s);
    assert r.Some?;
    assert r.value.0 == 0;
    assert r.value.1 == 8;
  }

  /** A reply without any opening bracket yields None unless it decodes as a whole. */
  lemma ExtractNoBracket(decode: Decoder, text: string)
    requires decode(text).None?
    requires '{' !in text && '[' !in text
    ensures ExtractJson(decode, text) == None
  {
    assert forall k :: 0 <= k < |text| ==> !IsSpanStart(text, k);
  }

  /** Prose around one object is cut away: with no bracket before the object and no closing
      brace after it, the object's own text is what gets decoded. */
  lemma ExtractSurrounded(decode: Decoder, before: string, obj: string, after: string)
    requires decode(before + obj + after).None?
    requires '{' !in before && '[' !in before
    requires |obj| >= 2 && obj[0] == '{' && obj[|obj| - 1] == '}'
    requires '}' !in after
    ensures ExtractJson(decode, before + obj + after) == decode(obj)
  {
    var text := before + obj + after;
    var b, e := |before|, |before| + |obj|;
    assert text[b] == '{' && text[e - 1] == '}';
    assert IsSpanStart(text, b);
    forall k | 0 <= k < b
      ensures !IsSpanStart(text, k)
    {
      assert text[k] == before[k];
    }
    forall k | e <= k < |text|
      ensures text[k] != '}'
    {
      assert text[k] == after[k - e];
    }
    assert IsFoundSpan(text, 0, b, e);
    ExtractFromSpan(decode, text, b, e);
    assert text[b..e] == obj;
  }

  /** "no json here" holds no bracket, so only a strict decode could succeed. */
  lemma NoJsonHere(decode: Decoder)
    requires decode("no json here").None?
    ensures ExtractJson(decode, "no json here") == None
  {
    ExtractNoBracket(decode, "no json here");
  }

  /** Surrounding prose is cut away: "prefix {"a":1} suffix" decodes as "{"a":1}". */
  lemma ObjectInProse(decode: Decoder)
    requires decode("prefix {\"a\":1} suffix").None?
    ensures ExtractJson(decode, "prefix {\"a\":1} suffix") == decode("{\"a\":1}")
  {
    assert "prefix {\"a\":1} suffix" == "prefix " + "{\"a\":1}" + " suffix";
    ExtractSurrounded(decode, "prefix ", "{\"a\":1}", " suffix");
  }
}
