/**
 * `clean_text` of the pipeline: decode HTML entities, turn every `<br/>`
 * tag into a newline, and trim whitespace at both ends. Empty or missing
 * input gives `None`.
 */
module TextCleaning {
  import opened Wrappers

  /** Python's `str.isspace`, the set `str.strip()` removes. */
  predicate IsSpace(c: char) {
    ('\t' <= c <= '\r') || ('\U{1C}' <= c <= ' ') || c == '\U{85}' || c == '\U{A0}'
    || c == '\U{1680}' || ('\U{2000}' <= c <= '\U{200A}') || c == '\U{2028}' || c == '\U{2029}'
    || c == '\U{202F}' || c == '\U{205F}' || c == '\U{3000}'
  }

  const BreakTag: string := "<br/>"

  /** A `<br/>` tag starts at index `k` of `s`. */
  predicate BreakTagAt(s: string, k: nat) {
    k + 5 <= |s| && s[k..k + 5] == BreakTag
  }

  predicate NoBreakTag(s: string) {
    forall k: nat :: k < |s| ==> !BreakTagAt(s, k)
  }

  /** Neither end of `s` is whitespace. */
  predicate Trimmed(s: string) {
    s == [] || (!IsSpace(s[0]) && !IsSpace(s[|s| - 1]))
  }

  /**
   * `s.replace("<br/>", "\n")`: a left-to-right scan that replaces each
   * non-overlapping occurrence.
   */
  function ReplaceBreaks(s: string): (r: string)
    ensures NoBreakTag(s) ==> r == s
    decreases |s|
  {
    if BreakTagAt(s, 0) then
      "\n" + ReplaceBreaks(s[5..])
    else if s == [] then
      []
    else
      assert NoBreakTag(s) ==> NoBreakTag(s[1..]) by {
        if NoBreakTag(s) {
          forall k: nat ensures !BreakTagAt(s[1..], k) {
            assert !BreakTagAt(s, k + 1);
            if k + 5 <= |s[1..]| { assert s[1..][k..k + 5] == s[k + 1..k + 6]; }
          }
        }
      }
      [s[0]] + ReplaceBreaks(s[1..])
  }

  /** A prefix of the replaced text without newlines was already a prefix of the input. */
  lemma {:induction false} ReplacedPrefixWithoutNewline(t: string, w: string)
    requires '\n' !in w
    requires |w| <= |ReplaceBreaks(t)| && ReplaceBreaks(t)[..|w|] == w
    ensures |w| <= |t| && t[..|w|] == w
    decreases |w|
  {
    if w != [] {
      assert ReplaceBreaks(t)[0] == w[0];
      assert !BreakTagAt(t, 0) && t != [];
      var rest := ReplaceBreaks(t[1..]);
      assert ReplaceBreaks(t) == [t[0]] + rest;
      assert rest[..|w| - 1] == w[1..];
      ReplacedPrefixWithoutNewline(t[1..], w[1..]);
    }
  }

  /** No `<br/>` survives the replacement, even one formed across a replaced tag. */
  lemma {:induction false} ReplaceBreaksRemovesTags(s: string)
    ensures NoBreakTag(ReplaceBreaks(s))
    decreases |s|
  {
    var r := ReplaceBreaks(s);
    if BreakTagAt(s, 0) {
      ReplaceBreaksRemovesTags(s[5..]);
      var rest := ReplaceBreaks(s[5..]);
      forall k: nat ensures !BreakTagAt(r, k) {
        if k == 0 {
          assert r[0] == '\n';
        } else if k + 5 <= |r| {
          assert r[k..k + 5] == rest[k - 1..k + 4];
          assert !BreakTagAt(rest, k - 1);
        }
      }
    } else if s != [] {
      ReplaceBreaksRemovesTags(s[1..]);
      var rest := ReplaceBreaks(s[1..]);
      assert r == [s[0]] + rest;
      forall k: nat ensures !BreakTagAt(r, k) {
        if k == 0 && BreakTagAt(r, 0) {
          assert r[..5] == BreakTag;
          assert rest[..4] == r[1..5] == BreakTag[1..] == "br/>";
          ReplacedPrefixWithoutNewline(s[1..], "br/>");
        } else if k > 0 && k + 5 <= |r| {
          assert r[k..k + 5] == rest[k - 1..k + 4];
          assert !BreakTagAt(rest, k - 1);
        }
      }
    }
  }

  /** `s.lstrip()`: drops leading whitespace and nothing else. */
  function StripStart(s: string): (r: string)
    ensures |r| <= |s| && r == s[|s| - |r|..]
    ensures forall k :: 0 <= k < |s| - |r| ==> IsSpace(s[k])
    ensures r == [] || !IsSpace(r[0])
    decreases |s|
  {
    if s != [] && IsSpace(s[0]) then StripStart(s[1..]) else s
  }

  /** `s.rstrip()`: drops trailing whitespace and nothing else. */
  function StripEnd(s: string): (r: string)
    ensures |r| <= |s| && r == s[..|r|]
    ensures forall k :: |r| <= k < |s| ==> IsSpace(s[k])
    ensures r == [] || !IsSpace(r[|r| - 1])
    decreases |s|
  {
    if s != [] && IsSpace(s[|s| - 1]) then StripEnd(s[..|s| - 1]) else s
  }

  /**
   * `s.strip()`: the result is the slice `s[i..j]` with only whitespace
   * outside it, and neither of its ends is whitespace.
   */
  function Strip(s: string): (r: string)
    ensures Trimmed(r)
    ensures exists i, j :: 0 <= i <= j <= |s| && r == s[i..j]
                        && (forall k :: 0 <= k < i ==> IsSpace(s[k]))
                        && (forall k :: j <= k < |s| ==> IsSpace(s[k]))
  {
    var t := StripStart(s);
    var r := StripEnd(t);
    var i := |s| - |t|;
    assert r == s[i..i + |r|];
    r
  }

  /** A slice of a text without `<br/>` has none either. */
  lemma SliceKeepsNoBreakTag(s: string, i: nat, j: nat)
    requires i <= j <= |s| && NoBreakTag(s)
    ensures NoBreakTag(s[i..j])
  {
    forall k: nat | BreakTagAt(s[i..j], k) ensures false {
      var t := s[i..j];
      assert forall m :: 0 <= m < 5 ==> s[i + k + m] == t[k + m] == BreakTag[m];
      assert s[i + k..i + k + 5] == BreakTag;
      assert BreakTagAt(s, i + k);
    }
  }

  /** The replace-then-strip stage of `clean_text` (after entity decoding). */
  function Normalize(s: string): (r: string)
    ensures NoBreakTag(r) && Trimmed(r)
  {
    NormalizeRemovesTags(s);
    Strip(ReplaceBreaks(s))
  }

  /** What stripping leaves of a text without `<br/>` has none either. */
  lemma NormalizeRemovesTags(s: string)
    ensures NoBreakTag(Strip(ReplaceBreaks(s)))
  {
    var t := ReplaceBreaks(s);
    ReplaceBreaksRemovesTags(s);
    var i, j :| 0 <= i <= j <= |t| && Strip(t) == t[i..j];
    SliceKeepsNoBreakTag(t, i, j);
  }

  /** Stripping a trimmed text changes nothing. */
  lemma StripTrimmed(s: string)
    requires Trimmed(s)
    ensures Strip(s) == s
  {
  }

  /** Normalizing already-normalized text is a no-op. */
  lemma NormalizeIdempotent(s: string)
    ensures Normalize(Normalize(s)) == Normalize(s)
  {
    var n := Normalize(s);
    assert ReplaceBreaks(n) == n;
    StripTrimmed(n);
  }

  /**
   * `clean_text(raw_text)`: `None` for a missing or empty text, otherwise the
   * entity-decoded text with `<br/>` tags turned into newlines and both ends
   * trimmed. `unescape` stands for `html.unescape`.
   */
  function CleanText(raw: Option<string>, unescape: string -> string): (r: Option<string>)
    ensures r.None? <==> raw.None? || raw.value == []
    ensures r.Some? ==> NoBreakTag(r.value) && Trimmed(r.value)
    ensures r.Some? ==> r.value == Normalize(unescape(raw.value))
  {
    if raw.None? || raw.value == [] then None else Some(Normalize(unescape(raw.value)))
  }
}
