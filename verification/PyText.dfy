/** The pieces of Python string handling the two tools rely on. */
module PyText {

  /** Code points for which `str.isspace` holds; `str.strip` and the regular expression `\s` use the same set. */
  predicate IsSpace(c: char) {
    || '\U{9}' <= c <= '\U{D}'
    || '\U{1C}' <= c <= ' '
    || c == '\U{85}' || c == '\U{A0}' || c == '\U{1680}'
    || '\U{2000}' <= c <= '\U{200A}'
    || c == '\U{2028}' || c == '\U{2029}' || c == '\U{202F}' || c == '\U{205F}' || c == '\U{3000}'
  }

  predicate AllSpace(s: string) {
    forall i | 0 <= i < |s| :: IsSpace(s[i])
  }

  function LStrip(s: string): string {
    if s != "" && IsSpace(s[0]) then LStrip(s[1..]) else s
  }

  function RStrip(s: string): string {
    if s != "" && IsSpace(s[|s| - 1]) then RStrip(s[..|s| - 1]) else s
  }

  function Strip(s: string): string {
    RStrip(LStrip(s))
  }

  /** No white space at either end. */
  predicate Trimmed(s: string) {
    s == "" || (!IsSpace(s[0]) && !IsSpace(s[|s| - 1]))
  }

  lemma {:induction false} LStripShape(s: string)
    ensures LStrip(s) == "" || !IsSpace(LStrip(s)[0])
    ensures s != "" && LStrip(s) != "" ==> LStrip(s)[|LStrip(s)| - 1] == s[|s| - 1]
  {
    if s != "" && IsSpace(s[0]) {
      LStripShape(s[1..]);
    }
  }

  lemma {:induction false} RStripShape(s: string)
    ensures RStrip(s) == "" || !IsSpace(RStrip(s)[|RStrip(s)| - 1])
    ensures s != "" && RStrip(s) != "" ==> RStrip(s)[0] == s[0]
  {
    if s != "" && IsSpace(s[|s| - 1]) {
      RStripShape(s[..|s| - 1]);
    }
  }

  /** Stripping leaves a trimmed string, and changes nothing exactly when the string is trimmed already. */
  lemma StripTrims(s: string)
    ensures Trimmed(Strip(s))
    ensures Strip(s) == s <==> Trimmed(s)
  {
    LStripShape(s);
    RStripShape(LStrip(s));
  }

  /** White space around a trimmed string disappears. */
  lemma {:induction false} StripPadding(left: string, core: string, right: string)
    requires AllSpace(left) && AllSpace(right)
    requires core != "" && Trimmed(core)
    ensures Strip(left + core + right) == core
    decreases |left| + |right|
  {
    if left != "" {
      assert (left + core + right)[1..] == left[1..] + core + right;
      StripPadding(left[1..], core, right);
    } else if right != "" {
      var s := left + core + right;
      assert s[..|s| - 1] == left + core + right[..|right| - 1];
      assert LStrip(s) == s && LStrip(s[..|s| - 1]) == s[..|s| - 1];
      StripPadding(left, core, right[..|right| - 1]);
    } else {
      assert left + core + right == core;
      StripTrims(core);
    }
  }

  /** ASCII part of `str.lower`. */
  function Lower(s: string): (r: string)
    ensures |r| == |s|
    ensures forall i | 0 <= i < |s| :: r[i] == if 'A' <= s[i] <= 'Z' then s[i] - 'A' + 'a' else s[i]
  {
    if s == "" then "" else [if 'A' <= s[0] <= 'Z' then s[0] - 'A' + 'a' else s[0]] + Lower(s[1..])
  }

  predicate StartsWith(s: string, word: string) {
    |s| >= |word| && s[..|word|] == word
  }

  predicate Contains(s: string, word: string) {
    exists i | 0 <= i <= |s| - |word| :: StartsWith(s[i..], word)
  }
}
