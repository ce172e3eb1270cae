/**
 * The realtime session's `SecurityUtils`: validation of outgoing chat text
 * against a denylist of four script-injection patterns, the sanitiser applied
 * before emitting, and the syntactic check on room identifiers.
 *
 * Each regular expression of the source is written out as a matcher at one
 * position; `Test` is `RegExp.prototype.test` (some match anywhere).
 */
module SocketSecurity {
  import opened JsText

  /** The four patterns, in the order the validator tries them. */
  datatype Pattern =
    | ScriptTag         // /<script\b[^<]*(?:(?!<\/script>)<[^<]*)*<\/script>/gi
    | JavascriptScheme  // /javascript:/gi
    | EventHandler      // /on\w+\s*=/gi
    | EvalCall          // /eval\s*\(/gi

  const MaliciousPatterns: seq<Pattern> := [ScriptTag, JavascriptScheme, EventHandler, EvalCall]

  const MaxMessageLength: nat := 500
  const MaxRoomIdLength: nat := 50

  predicate WordsIn(s: string, a: nat, b: nat)
    requires a <= b <= |s|
  {
    forall k :: a <= k < b ==> IsWordChar(s[k])
  }

  predicate SpacesIn(s: string, a: nat, b: nat)
    requires a <= b <= |s|
  {
    forall k :: a <= k < b ==> IsSpace(s[k])
  }

  /** End of the longest run of `\w` characters starting at `k` (what a greedy `\w*` consumes). */
  function WordRunEnd(s: string, k: nat): (e: nat)
    requires k <= |s|
    ensures k <= e <= |s| && WordsIn(s, k, e)
    ensures e == |s| || !IsWordChar(s[e])
    decreases |s| - k
  {
    if k == |s| || !IsWordChar(s[k]) then k else WordRunEnd(s, k + 1)
  }

  /** End of the longest run of `\s` characters starting at `k` (what a greedy `\s*` consumes). */
  function SpaceRunEnd(s: string, k: nat): (e: nat)
    requires k <= |s|
    ensures k <= e <= |s| && SpacesIn(s, k, e)
    ensures e == |s| || !IsSpace(s[e])
    decreases |s| - k
  {
    if k == |s| || !IsSpace(s[k]) then k else SpaceRunEnd(s, k + 1)
  }

  /** Some `</script>` (any case) starts at or after index `j`. */
  function ClosingTagFrom(s: string, j: nat): (r: bool)
    ensures r <==> exists m :: j <= m && CiAt(s, m, "</script>")
    decreases |s| - j
  {
    if j + 9 > |s| then
      assert forall m :: j <= m ==> !CiAt(s, m, "</script>");
      false
    else
      CiAt(s, j, "</script>") || ClosingTagFrom(s, j + 1)
  }

  /** The fewest characters a match of a pattern the sanitiser strips can span. */
  function MinMatch(p: Pattern): nat {
    if p == JavascriptScheme then 11 else 4
  }

  /** Where a match of the pattern starting at `i` ends; meaningful when `MatchesAt` holds. */
  function MatchEnd(p: Pattern, s: string, i: nat): (e: nat)
    requires i <= |s|
    ensures (p == JavascriptScheme || p == EventHandler) && MatchesAt(p, s, i) ==> i + MinMatch(p) <= e <= |s|
  {
    match p
    case ScriptTag => |s|
    case JavascriptScheme => i + 11
    case EventHandler =>
      if i + 2 <= |s| then SpaceRunEnd(s, WordRunEnd(s, i + 2)) + 1 else i + 1
    case EvalCall =>
      if i + 4 <= |s| then SpaceRunEnd(s, i + 4) + 1 else i + 1
  }

  /** The pattern matches, leftmost, at index `i`. */
  predicate MatchesAt(p: Pattern, s: string, i: nat)
    requires i <= |s|
  {
    match p
    case ScriptTag =>
      // `<script` then a word boundary, then anything, then the first `</script>`
      CiAt(s, i, "<script") && (i + 7 == |s| || !IsWordChar(s[i + 7])) && ClosingTagFrom(s, i + 7)
    case JavascriptScheme =>
      CiAt(s, i, "javascript:")
    case EventHandler =>
      CiAt(s, i, "on") &&
      var e := WordRunEnd(s, i + 2);
      e > i + 2 && var m := SpaceRunEnd(s, e); m < |s| && s[m] == '='
    case EvalCall =>
      CiAt(s, i, "eval") &&
      var m := SpaceRunEnd(s, i + 4); m < |s| && s[m] == '('
  }

  /**
   * The greedy matcher for `on\w+\s*=` agrees with the backtracking meaning of
   * the expression: some split of the text after `on` into a non-empty word
   * run, a white-space run and `=`.
   */
  lemma EventHandlerSemantics(s: string, i: nat, e: nat, m: nat)
    requires i + 2 < e <= m < |s|
    requires CiAt(s, i, "on") && WordsIn(s, i + 2, e) && SpacesIn(s, e, m) && s[m] == '='
    ensures MatchesAt(EventHandler, s, i)
    ensures MatchEnd(EventHandler, s, i) == m + 1
  {
    assert !IsWordChar(s[e]) by {
      if e < m { assert IsSpace(s[e]); }
    }
    WordRunUnique(s, i + 2, e);
    SpaceRunUnique(s, e, m);
  }

  /** A word run that stops before a non-word character is the greedy one. */
  lemma {:induction false} WordRunUnique(s: string, k: nat, e: nat)
    requires k <= e <= |s| && WordsIn(s, k, e) && (e == |s| || !IsWordChar(s[e]))
    ensures WordRunEnd(s, k) == e
    decreases e - k
  {
    if k < e {
      WordRunUnique(s, k + 1, e);
    }
  }

  /** A white-space run that stops before a non-space character is the greedy one. */
  lemma {:induction false} SpaceRunUnique(s: string, k: nat, e: nat)
    requires k <= e <= |s| && SpacesIn(s, k, e) && (e == |s| || !IsSpace(s[e]))
    ensures SpaceRunEnd(s, k) == e
    decreases e - k
  {
    if k < e {
      SpaceRunUnique(s, k + 1, e);
    }
  }

  /** The pattern matches somewhere at or after index `i`. */
  function TestFrom(p: Pattern, s: string, i: nat): (r: bool)
    requires i <= |s|
    ensures r <==> exists k :: i <= k <= |s| && MatchesAt(p, s, k)
    decreases |s| - i
  {
    if MatchesAt(p, s, i) then true
    else if i == |s| then false
    else TestFrom(p, s, i + 1)
  }

  /** `pattern.test(s)`: the pattern matches somewhere in `s`. */
  function Test(p: Pattern, s: string): (r: bool)
    ensures r <==> exists k :: 0 <= k <= |s| && MatchesAt(p, s, k)
  {
    TestFrom(p, s, 0)
  }

  /** Some denylisted pattern occurs in the message. */
  predicate Forbidden(message: string) {
    exists p :: p in MaliciousPatterns && Test(p, message)
  }

  datatype MessageError = InvalidFormat | TooLong | ForbiddenContent

  datatype Validation = Valid | Invalid(reason: MessageError)

  /**
   * `SecurityUtils.validateMessage`. The empty string is refused as an invalid
   * format (it is falsy, so the later "empty" branch of the source is dead);
   * the patterns are tried one after another until one matches.
   */
  method ValidateMessage(message: string) returns (v: Validation)
    ensures v == Valid <==> 1 <= |message| <= MaxMessageLength && !Forbidden(message)
    ensures v == Invalid(InvalidFormat) <==> message == []
    ensures v == Invalid(TooLong) <==> |message| > MaxMessageLength
    ensures v == Invalid(ForbiddenContent) <==>
              1 <= |message| <= MaxMessageLength && Forbidden(message)
  {
    if message == [] {
      return Invalid(InvalidFormat);
    }
    if |message| > MaxMessageLength {
      return Invalid(TooLong);
    }
    var k := 0;
    while k < |MaliciousPatterns|
      invariant 0 <= k <= |MaliciousPatterns|
      invariant forall j :: 0 <= j < k ==> !Test(MaliciousPatterns[j], message)
    {
      if Test(MaliciousPatterns[k], message) {
        return Invalid(ForbiddenContent);
      }
      k := k + 1;
    }
    return Valid;
  }

  /** `.replace(/[<>]/g, '')`: every other character survives, as often as it occurred. */
  function RemoveAngles(s: string): (r: string)
    ensures '<' !in r && '>' !in r
    ensures forall c :: c != '<' && c != '>' ==> multiset(r)[c] == multiset(s)[c]
    ensures forall c :: c in r ==> c in s
    ensures |r| <= |s|
    ensures ('<' in s || '>' in s) ==> |r| < |s|
    ensures '<' !in s && '>' !in s ==> r == s
  {
    if s == [] then []
    else
      assert s == [s[0]] + s[1..];
      if s[0] == '<' || s[0] == '>' then RemoveAngles(s[1..])
      else [s[0]] + RemoveAngles(s[1..])
  }

  /** Removing angles works piece by piece, so the surviving characters keep their order. */
  lemma {:induction false} RemoveAnglesAppend(a: string, b: string)
    ensures RemoveAngles(a + b) == RemoveAngles(a) + RemoveAngles(b)
  {
    if a != [] {
      assert (a + b)[0] == a[0] && (a + b)[1..] == a[1..] + b;
      RemoveAnglesAppend(a[1..], b);
      if a[0] != '<' && a[0] != '>' {
        Associative([a[0]], RemoveAngles(a[1..]), RemoveAngles(b));
      }
    } else {
      assert a + b == b;
    }
  }

  /**
   * A global `replace(pattern, '')` from index `i` on: at each index the
   * leftmost match is cut out and scanning resumes after it; text with no
   * match is kept whole.
   */
  function StripFrom(p: Pattern, s: string, i: nat): (r: string)
    requires p == JavascriptScheme || p == EventHandler
    requires i <= |s|
    ensures forall c :: c in r ==> c in s[i..]
    ensures (forall k :: i <= k <= |s| ==> !MatchesAt(p, s, k)) ==> r == s[i..]
    ensures |r| <= |s| - i
    ensures TestFrom(p, s, i) ==> |r| + MinMatch(p) <= |s| - i
    decreases |s| - i
  {
    if i == |s| then []
    else if MatchesAt(p, s, i) then
      var e := MatchEnd(p, s, i);
      var r := StripFrom(p, s, e);
      assert forall c :: c in s[e..] ==> c in s[i..];
      r
    else
      var r := StripFrom(p, s, i + 1);
      assert s[i..] == [s[i]] + s[i + 1..];
      [s[i]] + r
  }

  /** One step of the scan: a character where no match starts is kept. */
  lemma StripKeeps(p: Pattern, s: string, i: nat)
    requires p == JavascriptScheme || p == EventHandler
    requires i < |s| && !MatchesAt(p, s, i)
    ensures StripFrom(p, s, i) == [s[i]] + StripFrom(p, s, i + 1)
  {
  }

  /** One step of the scan: a match is dropped whole. */
  lemma StripCuts(p: Pattern, s: string, i: nat)
    requires p == JavascriptScheme || p == EventHandler
    requires i < |s| && MatchesAt(p, s, i)
    ensures StripFrom(p, s, i) == StripFrom(p, s, MatchEnd(p, s, i))
  {
  }

  /** No match of the pattern starts at an index in `[i, k)`. */
  predicate NoMatchIn(p: Pattern, s: string, i: nat, k: nat)
    requires i <= k <= |s|
    decreases k - i
  {
    i == k || (!MatchesAt(p, s, i) && NoMatchIn(p, s, i + 1, k))
  }

  /** A stretch where no match starts survives verbatim, and the scan goes on after it. */
  lemma {:induction false} StripKeepsRun(p: Pattern, s: string, i: nat, k: nat)
    requires p == JavascriptScheme || p == EventHandler
    requires i <= k <= |s| && NoMatchIn(p, s, i, k)
    ensures StripFrom(p, s, i) == s[i..k] + StripFrom(p, s, k)
    decreases k - i
  {
    if i < k {
      var rest := StripFrom(p, s, k);
      StripKeepsRun(p, s, i + 1, k);
      StripKeeps(p, s, i);
      SliceCons(s, i, k);
      Associative([s[i]], s[i + 1..k], rest);
    }
  }

  /**
   * `input.replace(pattern, '')` for a global pattern: only characters of the
   * input remain, a text without a match is returned whole, and one with a
   * match loses at least the shortest match.
   */
  function Strip(p: Pattern, s: string): (r: string)
    requires p == JavascriptScheme || p == EventHandler
    ensures forall c :: c in r ==> c in s
    ensures |r| <= |s|
    ensures !Test(p, s) ==> r == s
    ensures Test(p, s) ==> |r| + MinMatch(p) <= |s|
  {
    assert s[0..] == s;
    StripFrom(p, s, 0)
  }

  /**
   * `SecurityUtils.sanitizeInput`: angle brackets removed, then every
   * `javascript:`, then every `on…=` handler prefix, then trimmed. Each stage
   * that finds something removes at least that much; text in which no stage
   * finds anything is only trimmed.
   */
  function SanitizeInput(input: string): (r: string)
    ensures '<' !in r && '>' !in r
    ensures Trimmed(r)
    ensures forall c :: c in r ==> c in input
    ensures |r| <= |input|
    ensures ('<' in input || '>' in input) ==> |r| < |input|
    ensures Test(JavascriptScheme, RemoveAngles(input)) ==> |r| + 11 <= |input|
    ensures Test(EventHandler, Strip(JavascriptScheme, RemoveAngles(input))) ==> |r| + 4 <= |input|
    ensures !Test(JavascriptScheme, RemoveAngles(input)) && !Test(EventHandler, RemoveAngles(input)) ==>
              r == Trim(RemoveAngles(input))
  {
    var noAngles := RemoveAngles(input);
    var noScheme := Strip(JavascriptScheme, noAngles);
    var noHandlers := Strip(EventHandler, noScheme);
    Trim(noHandlers)
  }

  /** Text with nothing to remove passes the sanitiser unchanged. */
  lemma SanitizeClean(input: string)
    requires '<' !in input && '>' !in input
    requires !Test(JavascriptScheme, input) && !Test(EventHandler, input)
    requires Trimmed(input)
    ensures SanitizeInput(input) == input
  {
  }

  /** A literal does not start at `k` when one of its letters differs there. */
  lemma BrokenAt(s: string, k: nat, lit: string, j: nat)
    requires j < |lit|
    requires k + |lit| <= |s| ==> LowerAscii(s[k + j]) != lit[j]
    ensures !CiAt(s, k, lit)
  {
  }

  /** A literal occurs nowhere in a text that lacks one of its letters, in either case. */
  lemma LetterAbsent(s: string, lit: string, j: nat)
    requires j < |lit|
    requires forall c :: c in s ==> LowerAscii(c) != lit[j]
    ensures forall k: nat :: !CiAt(s, k, lit)
  {
    forall k: nat
      ensures !CiAt(s, k, lit)
    {
      if k + |lit| <= |s| {
        assert s[k + j] in s;
      }
    }
  }

  /** The message that shows the validator and the sanitiser disagree. */
  const SplitScheme: string := "javajava<script:script:"

  /** It holds no closing tag, so no script tag: it has no `/`. */
  lemma SplitSchemeNoScriptTag()
    ensures !Test(ScriptTag, SplitScheme)
  {
    LetterAbsent(SplitScheme, "</script>", 1);
  }

  /** It holds no handler prefix: it has no `o`. */
  lemma SplitSchemeNoHandler()
    ensures !Test(EventHandler, SplitScheme)
  {
    LetterAbsent(SplitScheme, "on", 0);
  }

  /** It holds no `eval(`: it has no `e`. */
  lemma SplitSchemeNoEval()
    ensures !Test(EvalCall, SplitScheme)
  {
    LetterAbsent(SplitScheme, "eval", 0);
  }

  /** No `javascript:` starts anywhere in it: every candidate before index 9 would cover the `<` at index 8. */
  lemma SplitSchemeNoSchemeAt(k: nat)
    ensures !CiAt(SplitScheme, k, "javascript:")
  {
    var lit := "javascript:";
    if k <= 8 {
      assert SplitScheme[8] == '<' && '<' !in lit;
      assert lit[8 - k] in lit;
      BrokenAt(SplitScheme, k, lit, 8 - k);
    } else if k <= 12 {
      assert 'j' !in SplitScheme[9..13];
      assert SplitScheme[k] in SplitScheme[9..13];
      BrokenAt(SplitScheme, k, lit, 0);
    }
  }

  /** It holds no `javascript:` either. */
  lemma SplitSchemeNoScheme()
    ensures !Test(JavascriptScheme, SplitScheme)
  {
    forall k | 0 <= k <= |SplitScheme|
      ensures !MatchesAt(JavascriptScheme, SplitScheme, k)
    {
      SplitSchemeNoSchemeAt(k);
    }
  }

  /** A message is forbidden exactly when one of the four patterns occurs in it. */
  lemma ForbiddenCases(message: string)
    ensures Forbidden(message) <==>
              Test(ScriptTag, message) || Test(JavascriptScheme, message) ||
              Test(EventHandler, message) || Test(EvalCall, message)
  {
    assert MaliciousPatterns[0] == ScriptTag && MaliciousPatterns[1] == JavascriptScheme;
    assert MaliciousPatterns[2] == EventHandler && MaliciousPatterns[3] == EvalCall;
  }

  /** The validator accepts it. */
  lemma SplitSchemeAccepted()
    ensures 1 <= |SplitScheme| <= MaxMessageLength && !Forbidden(SplitScheme)
  {
    SplitSchemeNoScriptTag();
    SplitSchemeNoScheme();
    SplitSchemeNoHandler();
    SplitSchemeNoEval();
    ForbiddenCases(SplitScheme);
  }

  /** A literal in lower case, copied verbatim, is found there. */
  lemma FoundAt(s: string, i: nat, lit: string)
    requires i + |lit| <= |s| && s[i..i + |lit|] == lit
    requires forall c :: c in lit ==> LowerAscii(c) == c
    ensures CiAt(s, i, lit)
  {
    forall k | 0 <= k < |lit|
      ensures LowerAscii(s[i + k]) == lit[k]
    {
      assert s[i + k] == s[i..i + |lit|][k];
      assert lit[k] in lit;
    }
  }

  /** A literal found at the start of `m` is found where `m` sits inside a longer text. */
  lemma FoundInside(a: string, m: string, b: string, lit: string)
    requires CiAt(m, 0, lit)
    ensures CiAt(a + m + b, |a|, lit)
  {
    forall k | 0 <= k < |lit|
      ensures LowerAscii((a + m + b)[|a| + k]) == lit[k]
    {
      assert (a + m + b)[|a| + k] == m[k];
    }
  }

  /** An angle bracket between two angle-free texts is all that goes. */
  lemma RemoveAnglesBetween(a: string, b: string)
    requires '<' !in a && '>' !in a && '<' !in b && '>' !in b
    ensures RemoveAngles(a + "<" + b) == a + b
  {
    RemoveAnglesAppend(a, "<" + b);
    RemoveAnglesAppend("<", b);
    assert RemoveAngles("<") == RemoveAngles([]);
    assert a + "<" + b == a + ("<" + b);
  }

  /** A scheme or a handler needs room for its shortest match. */
  lemma NoRoomNoMatch(p: Pattern, s: string, k: nat)
    requires p == JavascriptScheme || p == EventHandler
    requires k <= |s| < k + MinMatch(p)
    ensures !MatchesAt(p, s, k)
  {
  }

  /** Nor does one start anywhere in a tail shorter than the shortest match. */
  lemma {:induction false} NoRoomNoMatchIn(p: Pattern, s: string, k: nat)
    requires p == JavascriptScheme || p == EventHandler
    requires k <= |s| < k + MinMatch(p)
    ensures NoMatchIn(p, s, k, |s|)
    decreases |s| - k
  {
    if k < |s| {
      NoRoomNoMatch(p, s, k);
      NoRoomNoMatchIn(p, s, k + 1);
    }
  }

  /** A single match, preceded by text where none starts and followed by less than the shortest match, is cut out alone. */
  lemma StripOnce(p: Pattern, s: string, i: nat)
    requires p == JavascriptScheme || p == EventHandler
    requires i < |s| && NoMatchIn(p, s, 0, i) && MatchesAt(p, s, i)
    requires |s| < MatchEnd(p, s, i) + MinMatch(p)
    ensures Strip(p, s) == s[..i] + s[MatchEnd(p, s, i)..]
  {
    var e := MatchEnd(p, s, i);
    assert StripFrom(p, s, e) == s[e..] by {
      NoRoomNoMatchIn(p, s, e);
      StripKeepsRun(p, s, e, |s|);
    }
    StripCuts(p, s, i);
    StripKeepsRun(p, s, 0, i);
    assert s[0..i] == s[..i] && s[0..] == s;
  }

  /** A scheme preceded by text where none starts, and followed by less than a scheme's length, is cut out alone. */
  lemma StripSchemeOnce(a: string, m: string, b: string)
    requires MatchesAt(JavascriptScheme, m, 0) && |m| == 11
    requires NoMatchIn(JavascriptScheme, a + m + b, 0, |a|)
    requires |b| < 11
    ensures Strip(JavascriptScheme, a + m + b) == a + b
  {
    FoundInside(a, m, b, "javascript:");
    MiddleSlice(a, m, b);
    StripOnce(JavascriptScheme, a + m + b, |a|);
  }

  /** No scheme starts in the first four characters of `java` followed by one. */
  lemma JavaThenScheme(b: string)
    ensures NoMatchIn(JavascriptScheme, "java" + "javascript:" + b, 0, 4)
  {
    var lit := "javascript:";
    var s := "java" + lit + b;
    BrokenAt(s, 0, lit, 4);
    BrokenAt(s, 1, lit, 0);
    BrokenAt(s, 2, lit, 0);
    BrokenAt(s, 3, lit, 0);
  }

  lemma SplitSchemeParts()
    ensures SplitScheme == "javajava" + "<" + "script:script:"
    ensures "javajava" + "script:script:" == "java" + "javascript:" + "script:"
    ensures "java" + "script:" == "javascript:"
  {
  }

  /** A text neither stage after the scheme pass touches comes out of them unchanged. */
  lemma LaterStagesKeep(s: string)
    requires !Test(EventHandler, s) && Trimmed(s)
    ensures Trim(Strip(EventHandler, s)) == s
  {
  }

  /** `javascript:` survives the handler pass and the trim. */
  lemma SchemeSurvives()
    ensures Trim(Strip(EventHandler, "javascript:")) == "javascript:"
  {
    LetterAbsent("javascript:", "on", 0);
    LaterStagesKeep("javascript:");
  }

  /** The scheme is in lower case, so it matches itself. */
  lemma SchemeMatches()
    ensures forall c :: c in "javascript:" ==> LowerAscii(c) == c
    ensures MatchesAt(JavascriptScheme, "javascript:", 0)
  {
    var lit := "javascript:";
    assert lit[0..11] == lit;
    FoundAt(lit, 0, lit);
  }

  /** Cutting the scheme out of `javajavascript:script:` joins its halves into a new one. */
  lemma JoinedStripped()
    ensures Strip(JavascriptScheme, "java" + "javascript:" + "script:") == "java" + "script:"
  {
    SchemeMatches();
    JavaThenScheme("script:");
    StripSchemeOnce("java", "javascript:", "script:");
  }

  /**
   * The sanitiser that runs after the validator can produce the very
   * pattern the validator refuses: the message above is accepted, and
   * sanitising it yields `javascript:`, because removing the angle bracket
   * joins the halves of a scheme and stripping that one joins two more.
   */
  lemma AcceptedThenSanitisedToScheme()
    ensures 1 <= |SplitScheme| <= MaxMessageLength && !Forbidden(SplitScheme)
    ensures SanitizeInput(SplitScheme) == "javascript:"
    ensures Test(JavascriptScheme, SanitizeInput(SplitScheme))
  {
    SplitSchemeAccepted();
    SplitSchemeParts();
    RemoveAnglesBetween("javajava", "script:script:");
    JoinedStripped();
    SchemeSurvives();
    SchemeMatches();
  }

  /** `SecurityUtils.validateRoomId`: `/^[a-zA-Z0-9_]{1,50}$/` on a non-empty id. */
  function ValidateRoomId(roomId: string): (r: bool)
    ensures r <==> 1 <= |roomId| <= MaxRoomIdLength &&
                   forall i :: 0 <= i < |roomId| ==> IsWordChar(roomId[i])
  {
    roomId != [] && |roomId| <= MaxRoomIdLength && WordRunEnd(roomId, 0) == |roomId|
  }
}
