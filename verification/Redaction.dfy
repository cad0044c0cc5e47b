/** The credential scanner and the recursive redaction of the interception-log summary. */
module Redaction {
  import opened PyText

  // ---- The pattern (bearer\s+)?(?:sk|rk|pk)-[A-Za-z0-9._~+\-/]{16,}, case-insensitively ----

  /** Case folding as the pattern's ASCII letters see it: four non-ASCII letters fold to ASCII ones. */
  function Fold(c: char): char {
    if 'A' <= c <= 'Z' then c - 'A' + 'a'
    else if c == '\U{17F}' then 's'
    else if c == '\U{212A}' then 'k'
    else if c == '\U{130}' || c == '\U{131}' then 'i'
    else c
  }

  predicate TokenChar(c: char) {
    || 'a' <= Fold(c) <= 'z'
    || '0' <= c <= '9'
    || c == '.' || c == '_' || c == '~' || c == '+' || c == '-' || c == '/'
  }

  predicate KeyHead(s: string) {
    |s| >= 3 && (Fold(s[0]) == 's' || Fold(s[0]) == 'r' || Fold(s[0]) == 'p') && Fold(s[1]) == 'k' && s[2] == '-'
  }

  predicate Spells(s: string, word: string) {
    |s| >= |word| && forall i | 0 <= i < |word| :: Fold(s[i]) == word[i]
  }

  /** A whole string of the form `sk-...`, with at least sixteen token characters. */
  predicate KeyWord(m: string) {
    |m| >= 19 && KeyHead(m) && forall i | 3 <= i < |m| :: TokenChar(m[i])
  }

  /** A whole string of the form `bearer` followed by white space. */
  predicate BearerWord(m: string) {
    |m| >= 7 && Spells(m, "bearer") && AllSpace(m[6..])
  }

  /** The strings the pattern matches, stated without reference to any search order. */
  predicate InLanguage(m: string) {
    KeyWord(m) || exists g | 0 <= g <= |m| :: BearerWord(m[..g]) && KeyWord(m[g..])
  }

  ghost predicate NoToken(s: string) {
    forall i, j | 0 <= i <= j <= |s| :: !InLanguage(s[i..j])
  }

  // ---- The scanner: greedy runs, the optional group tried first ----

  function TokenRun(s: string): (n: nat)
    ensures n <= |s|
    ensures forall i | 0 <= i < n :: TokenChar(s[i])
    ensures n < |s| ==> !TokenChar(s[n])
  {
    if s != "" && TokenChar(s[0]) then 1 + TokenRun(s[1..]) else 0
  }

  function SpaceRun(s: string): (n: nat)
    ensures n <= |s|
    ensures forall i | 0 <= i < n :: IsSpace(s[i])
    ensures n < |s| ==> !IsSpace(s[n])
  {
    if s != "" && IsSpace(s[0]) then 1 + SpaceRun(s[1..]) else 0
  }

  function KeyLength(s: string): (n: nat)
    ensures n <= |s|
  {
    if KeyHead(s) && TokenRun(s[3..]) >= 16 then 3 + TokenRun(s[3..]) else 0
  }

  function BearerLength(s: string): (n: nat)
    ensures n <= |s|
  {
    if Spells(s, "bearer") && SpaceRun(s[6..]) >= 1 then 6 + SpaceRun(s[6..]) else 0
  }

  datatype Match = NoMatch | Match(length: nat, bearer: bool)

  /** What the regular expression engine finds at the start of `s`. */
  function MatchHere(s: string): (m: Match)
    ensures m.Match? ==> 0 < m.length <= |s|
  {
    var b := BearerLength(s);
    if b > 0 && KeyLength(s[b..]) > 0 then Match(b + KeyLength(s[b..]), true)
    else if KeyLength(s) > 0 then Match(KeyLength(s), false)
    else NoMatch
  }

  function Replacement(bearer: bool): string {
    if bearer then "Bearer [REDACTED]" else "[REDACTED]"
  }

  /** `TOKEN_RE.sub`: leftmost matches, left to right, never rescanning what was written. */
  function Substitute(s: string): string {
    if s == "" then ""
    else match MatchHere(s)
      case Match(n, bearer) => Replacement(bearer) + Substitute(s[n..])
      case NoMatch => [s[0]] + Substitute(s[1..])
  }

  // ---- The scanner finds exactly the language, and takes the longest match ----

  lemma TokenRunCovers(s: string, n: nat)
    requires n <= |s| && forall i | 0 <= i < n :: TokenChar(s[i])
    ensures n <= TokenRun(s)
  {
  }

  lemma KeyLengthIsLongest(s: string, n: nat)
    requires n <= |s| && KeyWord(s[..n])
    ensures n <= KeyLength(s)
  {
    forall i | 0 <= i < n - 3 ensures TokenChar(s[3..][i]) {
      assert s[3..][i] == s[..n][i + 3];
    }
    TokenRunCovers(s[3..], n - 3);
  }

  lemma KeyLengthIsWord(s: string)
    requires KeyLength(s) > 0
    ensures KeyWord(s[..KeyLength(s)])
  {
    var n := KeyLength(s);
    forall i | 3 <= i < n ensures TokenChar(s[..n][i]) {
      assert s[..n][i] == s[3..][i - 3];
    }
  }

  lemma SpaceRunIs(s: string, n: nat)
    requires n < |s| && (forall i | 0 <= i < n :: IsSpace(s[i])) && !IsSpace(s[n])
    ensures SpaceRun(s) == n
  {
  }

  lemma BearerLengthIsForced(s: string, g: nat)
    requires g < |s| && BearerWord(s[..g]) && !IsSpace(s[g])
    ensures BearerLength(s) == g
  {
    forall i | 0 <= i < g - 6 ensures IsSpace(s[6..][i]) {
      assert s[6..][i] == s[..g][6..][i];
    }
    SpaceRunIs(s[6..], g - 6);
    forall i | 0 <= i < 6 ensures Fold(s[i]) == "bearer"[i] {
      assert s[i] == s[..g][i];
    }
  }

  lemma BearerLengthIsWord(s: string)
    requires BearerLength(s) > 0
    ensures BearerWord(s[..BearerLength(s)])
  {
    var b := BearerLength(s);
    assert s[..b][6..] == s[6..][..b - 6];
  }

  /** A prefix lies in the language exactly when the scanner matches, and the scanner takes the longest one. */
  lemma MatchHereIsLongestPrefix(s: string)
    ensures (exists n | 0 <= n <= |s| :: InLanguage(s[..n])) <==> MatchHere(s).Match?
    ensures MatchHere(s).Match? ==> InLanguage(s[..MatchHere(s).length])
    ensures MatchHere(s).Match? ==> forall n | 0 <= n <= |s| && InLanguage(s[..n]) :: n <= MatchHere(s).length
  {
    if MatchHere(s).Match? {
      MatchHereIsWord(s);
    }
    forall n | 0 <= n <= |s| && InLanguage(s[..n]) ensures MatchHere(s).Match? && n <= MatchHere(s).length {
      PrefixIsNoLonger(s, n);
    }
  }

  lemma MatchHereIsWord(s: string)
    requires MatchHere(s).Match?
    ensures InLanguage(s[..MatchHere(s).length])
  {
    var n := MatchHere(s).length;
    if MatchHere(s).bearer {
      var b := BearerLength(s);
      BearerLengthIsWord(s);
      KeyLengthIsWord(s[b..]);
      assert s[..n][..b] == s[..b] && s[..n][b..] == s[b..][..n - b];
    } else {
      KeyLengthIsWord(s);
    }
  }

  lemma KeyPrefix(s: string, n: nat)
    requires n <= |s| && KeyWord(s[..n])
    ensures MatchHere(s).Match? && n <= MatchHere(s).length
  {
    KeyLengthIsLongest(s, n);
    assert s[0] == s[..n][0];
    assert Fold(s[0]) != "bearer"[0];
  }

  lemma BearerPrefix(s: string, n: nat, g: nat)
    requires g <= n <= |s| && BearerWord(s[..g]) && KeyWord(s[g..n])
    ensures MatchHere(s).Match? && n <= MatchHere(s).length
  {
    assert s[g] == s[g..n][0];
    BearerLengthIsForced(s, g);
    assert s[g..][..n - g] == s[g..n];
    KeyLengthIsLongest(s[g..], n - g);
  }

  lemma PrefixIsNoLonger(s: string, n: nat)
    requires n <= |s| && InLanguage(s[..n])
    ensures MatchHere(s).Match? && n <= MatchHere(s).length
  {
    if KeyWord(s[..n]) {
      KeyPrefix(s, n);
    } else {
      var g :| 0 <= g <= n && BearerWord(s[..n][..g]) && KeyWord(s[..n][g..]);
      assert s[..n][..g] == s[..g] && s[..n][g..] == s[g..n];
      BearerPrefix(s, n, g);
    }
  }

  // ---- A string holds a token exactly when a key word starts somewhere in it ----

  /** The shortest key word starts at the front of `s`. */
  predicate KeyStarts(s: string) {
    |s| >= 19 && KeyHead(s) && forall i | 3 <= i < 19 :: TokenChar(s[i])
  }

  lemma KeyStartsMatches(s: string)
    requires KeyStarts(s)
    ensures MatchHere(s).Match?
  {
    assert KeyWord(s[..19]);
    KeyPrefix(s, 19);
  }

  lemma TokenHasKeyStart(s: string, i: nat, j: nat)
    requires i <= j <= |s| && InLanguage(s[i..j])
    ensures exists p | 0 <= p <= |s| :: KeyStarts(s[p..])
  {
    var m := s[i..j];
    assert m[0..] == m;
    var g :| 0 <= g <= |m| && KeyWord(m[g..]);
    assert m[g..] == s[i + g..][..j - i - g];
    KeyWordStarts(s[i + g..], j - i - g);
  }

  lemma KeyWordStarts(s: string, n: nat)
    requires n <= |s| && KeyWord(s[..n])
    ensures KeyStarts(s)
  {
    forall k | 0 <= k < n ensures s[k] == s[..n][k] {
    }
  }

  lemma KeyStartIsToken(s: string, p: nat)
    requires p <= |s| && KeyStarts(s[p..])
    ensures InLanguage(s[p..p + 19])
  {
    forall k | 0 <= k < 19 ensures s[p..p + 19][k] == s[p..][k] {
    }
  }

  lemma NoTokenByStarts(s: string)
    ensures NoToken(s) <==> forall p | 0 <= p <= |s| :: !KeyStarts(s[p..])
  {
    if p :| 0 <= p <= |s| && KeyStarts(s[p..]) {
      KeyStartIsToken(s, p);
    } else if i, j :| 0 <= i <= j <= |s| && InLanguage(s[i..j]) {
      TokenHasKeyStart(s, i, j);
    }
  }

  // ---- Substitution cannot leave or create a token ----

  /** The first `n` characters are all token characters. */
  predicate TokenPrefix(s: string, n: nat) {
    n <= |s| && forall i | 0 <= i < n :: TokenChar(s[i])
  }

  lemma TokenPrefixCons(c: char, t: string, n: nat)
    ensures TokenPrefix([c] + t, n + 1) <==> TokenChar(c) && TokenPrefix(t, n)
  {
    var s := [c] + t;
    assert |s| == |t| + 1 && s[0] == c;
    if TokenPrefix(s, n + 1) {
      forall i | 0 <= i < n ensures TokenChar(t[i]) {
        assert t[i] == s[i + 1];
      }
    }
  }

  /** A replacement followed by anything has at most six leading token characters, and only as `Bearer`. */
  lemma ReplacementPrefix(bearer: bool, rest: string, n: nat)
    requires n > 0 && TokenPrefix(Replacement(bearer) + rest, n)
    ensures bearer && n <= 6
  {
    var r := Replacement(bearer);
    assert (r + rest)[0] == r[0];
    assert (r + rest)[6] == r[6];
  }

  lemma BearerIsTokenPrefix(s: string)
    requires Spells(s, "bearer")
    ensures TokenPrefix(s, 6)
  {
    forall i | 0 <= i < 6 ensures TokenChar(s[i]) {
      assert Fold(s[i]) == "bearer"[i];
    }
  }

  /** Token characters at the front of the output were token characters at the front of the input. */
  lemma {:induction false} TokenPrefixSurvives(s: string, n: nat)
    requires TokenPrefix(Substitute(s), n)
    ensures TokenPrefix(s, n)
  {
    if n > 0 {
      match MatchHere(s)
      case Match(len, bearer) =>
        ReplacementPrefix(bearer, Substitute(s[len..]), n);
        BearerIsTokenPrefix(s);
      case NoMatch =>
        TokenPrefixCons(s[0], Substitute(s[1..]), n - 1);
        TokenPrefixSurvives(s[1..], n - 1);
        TokenPrefixCons(s[0], s[1..], n - 1);
        assert s == [s[0]] + s[1..];
    }
  }

  /** An output character that no replacement can start with was copied from the input. */
  lemma CopiedHead(s: string)
    requires Substitute(s) != "" && Substitute(s)[0] != '[' && Substitute(s)[0] != 'B'
    ensures s != "" && MatchHere(s).NoMatch?
    ensures s[0] == Substitute(s)[0] && Substitute(s[1..]) == Substitute(s)[1..]
  {
  }

  lemma {:induction false} CopiedPrefix(s: string, n: nat)
    requires n <= |Substitute(s)|
    requires forall i | 0 <= i < n :: Substitute(s)[i] != '[' && Substitute(s)[i] != 'B'
    ensures n <= |s| && s[..n] == Substitute(s)[..n] && Substitute(s[n..]) == Substitute(s)[n..]
  {
    hide MatchHere;
    var out := Substitute(s);
    if n == 0 {
      assert s[0..] == s && out[0..] == out;
    } else {
      CopiedHead(s);
      hide *;
      assert forall i | 0 <= i < n - 1 :: out[1..][i] == out[i + 1];
      CopiedPrefix(s[1..], n - 1);
      TailOfTail(s, n);
      TailOfTail(out, n);
      SamePrefix(s, out, n);
    }
  }

  lemma TailOfTail(s: string, n: nat)
    requires 0 < n <= |s|
    ensures s[1..][n - 1..] == s[n..]
  {
  }

  lemma SamePrefix(s: string, t: string, n: nat)
    requires 0 < n <= |s| && n <= |t| && s[0] == t[0] && s[1..][..n - 1] == t[1..][..n - 1]
    ensures s[..n] == t[..n]
  {
    assert s[..n] == [s[0]] + s[1..][..n - 1] && t[..n] == [t[0]] + t[1..][..n - 1];
  }

  lemma KeyHeadIsCopied(s: string)
    requires KeyHead(Substitute(s))
    ensures KeyHead(s) && MatchHere(s).NoMatch?
    ensures Substitute(s[3..]) == Substitute(s)[3..]
  {
    hide MatchHere;
    CopiedHead(s);
    CopiedPrefix(s, 3);
    SameHead(s, Substitute(s));
  }

  lemma SameHead(s: string, t: string)
    requires |s| >= 3 && |t| >= 3 && s[..3] == t[..3] && KeyHead(t)
    ensures KeyHead(s)
  {
    forall i | 0 <= i < 3 ensures s[i] == t[i] {
      assert s[..3][i] == t[..3][i];
    }
  }

  lemma KeyStartsIff(s: string)
    ensures KeyStarts(s) <==> KeyHead(s) && TokenPrefix(s[3..], 16)
  {
    if KeyHead(s) {
      assert forall i | 0 <= i < |s| - 3 :: s[3..][i] == s[i + 3];
      assert forall i | 3 <= i < |s| :: s[i] == s[3..][i - 3];
    }
  }

  lemma KeyStartsSurvives(s: string)
    requires KeyStarts(Substitute(s))
    ensures MatchHere(s).NoMatch? && KeyStarts(s)
  {
    KeyStartsIff(Substitute(s));
    KeyHeadIsCopied(s);
    TokenPrefixSurvives(s[3..], 16);
    KeyStartsIff(s);
  }

  /** The output never starts with a key word: it would have been copied from a key word the scanner matches. */
  lemma SubstituteNotKeyStart(s: string)
    ensures !KeyStarts(Substitute(s))
  {
    if KeyStarts(Substitute(s)) {
      KeyStartsSurvives(s);
      KeyStartsMatches(s);
    }
  }

  lemma {:induction false} SubstituteHasNoKeyStart(s: string, p: nat)
    requires p <= |Substitute(s)|
    ensures !KeyStarts(Substitute(s)[p..])
    decreases |s|
  {
    hide MatchHere;
    var out := Substitute(s);
    if p == 0 || s == "" {
      assert out[p..] == out;
      SubstituteNotKeyStart(s);
    } else {
      match MatchHere(s)
      case NoMatch =>
        assert out[p..] == Substitute(s[1..])[p - 1..];
        SubstituteHasNoKeyStart(s[1..], p - 1);
      case Match(n, bearer) =>
        var r := Replacement(bearer);
        assert out == r + Substitute(s[n..]);
        if p >= |r| {
          assert out[p..] == Substitute(s[n..])[p - |r|..];
          SubstituteHasNoKeyStart(s[n..], p - |r|);
        } else {
          ReplacementBlocks(bearer, Substitute(s[n..]), p);
        }
    }
  }

  /** No key word starts inside a replacement, whatever follows it. */
  lemma ReplacementBlocks(bearer: bool, rest: string, p: nat)
    requires p < |Replacement(bearer)|
    ensures !KeyStarts((Replacement(bearer) + rest)[p..])
  {
    var r := Replacement(bearer);
    var w := (r + rest)[p..];
    assert w[0] == r[p];
    assert p < |r| - 1 ==> w[1] == r[p + 1];
    assert r[|r| - 1] == ']';
  }

  /** Redacted text holds no match of the token pattern. */
  lemma SubstituteLeavesNoToken(s: string)
    ensures NoToken(Substitute(s))
  {
    forall p | 0 <= p <= |Substitute(s)| ensures !KeyStarts(Substitute(s)[p..]) {
      SubstituteHasNoKeyStart(s, p);
    }
    NoTokenByStarts(Substitute(s));
  }

  /** Substitution is the identity exactly on text without a token. */
  lemma SubstituteFixpoint(s: string)
    ensures Substitute(s) == s <==> NoToken(s)
  {
    if Substitute(s) == s {
      SubstituteLeavesNoToken(s);
    } else if NoToken(s) {
      NoTokenByStarts(s);
      CleanIsKept(s);
    }
  }

  lemma {:induction false} CleanIsKept(s: string)
    requires forall p | 0 <= p <= |s| :: !KeyStarts(s[p..])
    ensures Substitute(s) == s
  {
    if s != "" {
      CleanDoesNotMatch(s);
      forall p | 0 <= p <= |s[1..]| ensures !KeyStarts(s[1..][p..]) {
        assert s[1..][p..] == s[p + 1..];
      }
      CleanIsKept(s[1..]);
    }
  }

  lemma CleanDoesNotMatch(s: string)
    requires forall p | 0 <= p <= |s| :: !KeyStarts(s[p..])
    ensures MatchHere(s).NoMatch?
  {
    if m: nat :| m <= |s| && InLanguage(s[..m]) {
      assert s[0..m] == s[..m];
      TokenHasKeyStart(s, 0, m);
    }
    MatchHereIsLongestPrefix(s);
  }

  // ---- Redaction of JSON values ----

  datatype Json =
    | Null
    | Bool(b: bool)
    | Number(n: real)
    | Text(s: string)
    | List(items: seq<Json>)
    | Object(members: seq<Member>)

  datatype Member = Member(key: string, value: Json)

  function FoldAll(s: string): string {
    seq(|s|, i requires 0 <= i < |s| => Fold(s[i]))
  }

  const SENSITIVE_WORDS: seq<string> :=
    ["authorization", "proxyauthorization", "proxy-authorization", "proxy_authorization", "cookie", "token",
     "apikey", "api-key", "api_key", "secret", "password"]

  /** `SENSITIVE_KEY_RE.search`. */
  predicate Sensitive(key: string) {
    exists w | w in SENSITIVE_WORDS :: Contains(FoldAll(key), w)
  }

  const REDACTED := Text("[REDACTED]")

  function Redact(value: Json): Json {
    match value
    case Text(s) => Text(Substitute(s))
    case List(items) => List(RedactList(items))
    case Object(members) => Object(RedactMembers(members))
    case _ => value
  }

  function RedactList(items: seq<Json>): seq<Json> {
    if items == [] then [] else [Redact(items[0])] + RedactList(items[1..])
  }

  function RedactMembers(members: seq<Member>): seq<Member> {
    if members == [] then []
    else
      var m := members[0];
      [Member(m.key, if Sensitive(m.key) then REDACTED else Redact(m.value))] + RedactMembers(members[1..])
  }

  /** Nothing left to redact: no token in any string at a value position, and sensitive members masked. */
  ghost predicate Clean(value: Json)
    decreases value
  {
    match value
    case Text(s) => NoToken(s)
    case List(items) => forall i | 0 <= i < |items| :: Clean(items[i])
    case Object(members) => forall i | 0 <= i < |members| ::
      if Sensitive(members[i].key) then members[i].value == REDACTED else Clean(members[i].value)
    case _ => true
  }

  /** The same keys, list lengths and nesting, except below sensitive keys; scalars other than text are equal. */
  ghost predicate SameShape(a: Json, b: Json)
    decreases a
  {
    match a
    case Text(_) => b.Text?
    case List(items) => b.List? && |b.items| == |items| && forall i | 0 <= i < |items| :: SameShape(items[i], b.items[i])
    case Object(members) => b.Object? && |b.members| == |members| && forall i | 0 <= i < |members| ::
      && members[i].key == b.members[i].key
      && (Sensitive(members[i].key) || SameShape(members[i].value, b.members[i].value))
    case _ => a == b
  }

  lemma {:induction false} RedactListPointwise(items: seq<Json>)
    ensures |RedactList(items)| == |items|
    ensures forall i | 0 <= i < |items| :: RedactList(items)[i] == Redact(items[i])
  {
    if items != [] {
      RedactListPointwise(items[1..]);
    }
  }

  lemma {:induction false} RedactMembersPointwise(members: seq<Member>)
    ensures |RedactMembers(members)| == |members|
    ensures forall i | 0 <= i < |members| ::
      RedactMembers(members)[i] == Member(members[i].key, if Sensitive(members[i].key) then REDACTED else Redact(members[i].value))
  {
    if members != [] {
      RedactMembersPointwise(members[1..]);
    }
  }

  /** Redaction always produces a clean value of the same shape. */
  lemma {:induction false} RedactCleans(value: Json)
    ensures Clean(Redact(value))
    ensures SameShape(value, Redact(value))
    decreases value
  {
    match value
    case Text(s) => SubstituteLeavesNoToken(s);
    case List(items) =>
      RedactListPointwise(items);
      forall i | 0 <= i < |items| ensures Clean(Redact(items[i])) && SameShape(items[i], Redact(items[i])) {
        RedactCleans(items[i]);
      }
    case Object(members) =>
      RedactMembersPointwise(members);
      forall i | 0 <= i < |members|
        ensures Clean(Redact(members[i].value)) && SameShape(members[i].value, Redact(members[i].value))
      {
        RedactCleans(members[i].value);
      }
    case _ =>
  }

  /** Redaction is the identity exactly on clean values. */
  lemma {:induction false} RedactFixpoint(value: Json)
    ensures Redact(value) == value <==> Clean(value)
    decreases value
  {
    match value
    case Text(s) => SubstituteFixpoint(s);
    case List(items) =>
      RedactListPointwise(items);
      forall i | 0 <= i < |items| ensures Redact(items[i]) == items[i] <==> Clean(items[i]) {
        RedactFixpoint(items[i]);
      }
      if Clean(value) {
        assert RedactList(items) == items;
      }
    case Object(members) =>
      RedactMembersPointwise(members);
      forall i | 0 <= i < |members| ensures Redact(members[i].value) == members[i].value <==> Clean(members[i].value) {
        RedactFixpoint(members[i].value);
      }
      if Clean(value) {
        assert RedactMembers(members) == members;
      }
    case _ =>
  }

  lemma RedactIsIdempotent(value: Json)
    ensures Redact(Redact(value)) == Redact(value)
  {
    RedactCleans(value);
    RedactFixpoint(Redact(value));
  }
}
