/**
 * The client-side stream helpers: validation of a new stream's details and
 * the participant identities handed to the media server. The clock reading
 * and the random suffix the identities use are parameters, and so is the
 * URL parser behind `isValidUrl`.
 */
module LiveApi {
  import opened Wrappers
  import opened JsText
  import opened ErrorLists

  const MaxTitleLength: nat := 100
  const MaxDescriptionLength: nat := 500

  datatype StreamData = StreamData(title: string, description: Option<string>, thumbnailUrl: Option<string>)

  datatype StreamError = TitleRequired | TitleTooLong | DescriptionTooLong | InvalidThumbnailUrl

  function Rank(e: StreamError): nat {
    match e
    case TitleRequired => 0
    case TitleTooLong => 1
    case DescriptionTooLong => 2
    case InvalidThumbnailUrl => 3
  }

  datatype StreamValidation = StreamValidation(isValid: bool, errors: seq<StreamError>)

  /**
   * The checks `validateStreamData` runs, in order. The first looks at the
   * trimmed title, the second at the raw one; the URL check applies only to a
   * non-empty thumbnail, and `isValidUrl` stands for "`new URL(url)` does not throw".
   */
  function StreamChecks(data: StreamData, isValidUrl: string -> bool): seq<(bool, StreamError)> {
    [ (AllSpace(data.title), TitleRequired),
      (|data.title| > MaxTitleLength, TitleTooLong),
      (data.description.Some? && |data.description.value| > MaxDescriptionLength, DescriptionTooLong),
      (data.thumbnailUrl.Some? && data.thumbnailUrl.value != "" && !isValidUrl(data.thumbnailUrl.value),
       InvalidThumbnailUrl) ]
  }

  /** `validateStreamData`: the failing checks' errors in order, and valid exactly when there are none. */
  method ValidateStreamData(data: StreamData, isValidUrl: string -> bool) returns (r: StreamValidation)
    ensures r.errors == Failures(StreamChecks(data, isValidUrl))
    ensures r.isValid <==> r.errors == []
  {
    ghost var c := StreamChecks(data, isValidUrl);
    var errors := [];
    if data.title == "" || |Trim(data.title)| < 1 {
      errors := errors + [TitleRequired];
    }
    assert errors == When(c[0].0, c[0].1);
    if data.title != "" && |data.title| > MaxTitleLength {
      errors := errors + [TitleTooLong];
    }
    if data.description.Some? && data.description.value != "" && |data.description.value| > MaxDescriptionLength {
      errors := errors + [DescriptionTooLong];
    }
    assert errors == When(c[0].0, c[0].1) + When(c[1].0, c[1].1) + When(c[2].0, c[2].1);
    if data.thumbnailUrl.Some? && data.thumbnailUrl.value != "" && !isValidUrl(data.thumbnailUrl.value) {
      errors := errors + [InvalidThumbnailUrl];
    }
    Failures4(c);
    return StreamValidation(|errors| == 0, errors);
  }

  /** The details are accepted exactly when the title has visible text, both texts are short enough and any thumbnail parses. */
  lemma StreamErrorsExact(data: StreamData, isValidUrl: string -> bool)
    ensures var errors := Failures(StreamChecks(data, isValidUrl));
            && (errors == [] <==>
                  && !AllSpace(data.title) && |data.title| <= MaxTitleLength
                  && (data.description.Some? ==> |data.description.value| <= MaxDescriptionLength)
                  && (data.thumbnailUrl.Some? && data.thumbnailUrl.value != "" ==> isValidUrl(data.thumbnailUrl.value)))
            && (TitleRequired in errors <==> AllSpace(data.title))
            && (TitleTooLong in errors <==> |data.title| > MaxTitleLength)
            && Ascending(errors, Rank)
  {
    var c := StreamChecks(data, isValidUrl);
    FailuresSorted(c, Rank);
    FailedExactly(c, Rank);
    assert c[0].1 == TitleRequired && c[1].1 == TitleTooLong;
    assert c[2].1 == DescriptionTooLong && c[3].1 == InvalidThumbnailUrl;
  }

  /** A title of more than 100 white-space characters is both missing and too long. */
  lemma BlankLongTitle(data: StreamData, isValidUrl: string -> bool)
    requires AllSpace(data.title) && |data.title| > MaxTitleLength
    ensures var errors := Failures(StreamChecks(data, isValidUrl));
            |errors| >= 2 && errors[..2] == [TitleRequired, TitleTooLong]
  {
    Failures4(StreamChecks(data, isValidUrl));
  }

  /** `s` without its leading white space. */
  function DropSpaces(s: string): (r: string)
    ensures |r| <= |s| && (r == [] || !IsSpace(r[0]))
    ensures r == s[|s| - |r|..] && AllSpace(s[..|s| - |r|])
    ensures s != [] && IsSpace(s[0]) ==> |r| < |s|
    ensures NoSpace(s) ==> r == s
  {
    if s != [] && IsSpace(s[0]) then
      var r := DropSpaces(s[1..]);
      var k := |s| - |r|;
      assert s[1..][k - 1..] == s[k..];
      assert forall i :: 1 <= i < k ==> s[i] == s[1..][..k - 1][i - 1];
      r
    else
      assert s[..0] == [];
      s
  }

  /** Dropping the leading white space of a concatenation drops it from the second part once the first is used up. */
  lemma {:induction false} DropAppend(a: string, b: string)
    ensures DropSpaces(a + b) == (if DropSpaces(a) == [] then DropSpaces(b) else DropSpaces(a) + b)
  {
    if a == [] {
      assert a + b == b;
    } else {
      HeadTail(a, b);
      if IsSpace(a[0]) {
        DropAppend(a[1..], b);
      }
    }
  }

  /** `s.replace(/\s+/g, '_')`: each run of white space becomes one underscore. */
  function CollapseSpaces(s: string): (r: string)
    ensures NoSpace(r)
    ensures |r| <= |s|
    ensures NoSpace(s) ==> r == s
    decreases |s|
  {
    if s == [] then []
    else if IsSpace(s[0]) then
      var rest := CollapseSpaces(DropSpaces(s));
      NoSpaceAppend("_", rest);
      "_" + rest
    else
      var rest := CollapseSpaces(s[1..]);
      NoSpaceAppend([s[0]], rest);
      HeadTail([s[0]], s[1..]);
      [s[0]] + rest
  }

  /** A whole run of white space becomes a single underscore. */
  lemma CollapseRun(s: string)
    requires s != [] && AllSpace(s)
    ensures CollapseSpaces(s) == "_"
  {
    assert IsSpace(s[0]);
  }

  /** One step of the replacement: a character that is not white space is copied. */
  lemma CollapseKeeps(s: string)
    requires s != [] && !IsSpace(s[0])
    ensures CollapseSpaces(s) == [s[0]] + CollapseSpaces(s[1..])
  {
  }

  /** One step of the replacement: a leading run becomes one underscore. */
  lemma CollapseCuts(s: string)
    requires s != [] && IsSpace(s[0])
    ensures CollapseSpaces(s) == "_" + CollapseSpaces(DropSpaces(s))
  {
  }

  /** The step of `CollapseAppend` at a first character that is kept. */
  lemma CollapseAppendKeep(a: string, b: string)
    requires a != [] && !IsSpace(a[0])
    requires CollapseSpaces(a[1..] + b) == CollapseSpaces(a[1..]) + CollapseSpaces(b)
    ensures CollapseSpaces(a + b) == CollapseSpaces(a) + CollapseSpaces(b)
  {
    var x, y := CollapseSpaces(a[1..]), CollapseSpaces(b);
    assert CollapseSpaces(a + b) == [a[0]] + (x + y) by {
      HeadTail(a, b);
      CollapseKeeps(a + b);
    }
    assert CollapseSpaces(a) == [a[0]] + x by {
      CollapseKeeps(a);
    }
    Associative([a[0]], x, y);
  }

  /** The step of `CollapseAppend` when the first part is one run of white space. */
  lemma CollapseAppendRun(a: string, b: string)
    requires a != [] && IsSpace(a[0]) && DropSpaces(a) == []
    requires b == [] || !IsSpace(b[0])
    ensures CollapseSpaces(a + b) == CollapseSpaces(a) + CollapseSpaces(b)
  {
    assert CollapseSpaces(a + b) == "_" + CollapseSpaces(b) by {
      HeadTail(a, b);
      CollapseCuts(a + b);
      DropAppend(a, b);
      DropNoLead(b);
    }
    assert CollapseSpaces(a) == "_" by {
      CollapseCuts(a);
    }
  }

  /** The step of `CollapseAppend` when a leading run of the first part ends inside it. */
  lemma CollapseAppendCut(a: string, b: string)
    requires a != [] && IsSpace(a[0]) && DropSpaces(a) != []
    requires CollapseSpaces(DropSpaces(a) + b) == CollapseSpaces(DropSpaces(a)) + CollapseSpaces(b)
    ensures CollapseSpaces(a + b) == CollapseSpaces(a) + CollapseSpaces(b)
  {
    var d := DropSpaces(a);
    var x, y := CollapseSpaces(d), CollapseSpaces(b);
    assert CollapseSpaces(a + b) == "_" + (x + y) by {
      HeadTail(a, b);
      CollapseCuts(a + b);
      DropAppend(a, b);
    }
    assert CollapseSpaces(a) == "_" + x by {
      CollapseCuts(a);
    }
    Associative("_", x, y);
  }

  /**
   * Collapsing works piece by piece wherever the cut does not fall inside a
   * run of white space; with `CollapseRun` and the identity on text without
   * white space this determines the replacement.
   */
  lemma {:induction false} CollapseAppend(a: string, b: string)
    requires !(a != [] && IsSpace(a[|a| - 1]) && b != [] && IsSpace(b[0]))
    ensures CollapseSpaces(a + b) == CollapseSpaces(a) + CollapseSpaces(b)
    decreases |a|
  {
    if a == [] {
      assert a + b == b;
    } else if !IsSpace(a[0]) {
      CollapseAppend(a[1..], b);
      CollapseAppendKeep(a, b);
    } else {
      var d := DropSpaces(a);
      if d == [] {
        assert AllSpace(a) by { assert a[..|a|] == a; }
        CollapseAppendRun(a, b);
      } else {
        assert d[|d| - 1] == a[|a| - 1];
        CollapseAppend(d, b);
        CollapseAppendCut(a, b);
      }
    }
  }

  /** Text that does not start with white space has none to drop. */
  lemma DropNoLead(b: string)
    requires b == [] || !IsSpace(b[0])
    ensures DropSpaces(b) == b
  {
  }

  /** Replacing again changes nothing. */
  lemma CollapseIdempotent(s: string)
    ensures CollapseSpaces(CollapseSpaces(s)) == CollapseSpaces(s)
  {
  }

  /** JavaScript truthiness of an optional string. */
  predicate Given(s: Option<string>) {
    s.Some? && s.value != ""
  }

  /** `generateStreamerIdentity`, given the clock reading and the random suffix. */
  function StreamerIdentity(userId: Option<string>, timestamp: nat, randomId: string): (id: string)
    ensures |id| >= 9 && id[..9] == "streamer_"
    ensures Given(userId) ==> id[9..] == userId.value + "_" + Decimal(timestamp)
    ensures !Given(userId) ==> id[9..] == Decimal(timestamp) + "_" + randomId
  {
    if Given(userId) then "streamer_" + userId.value + "_" + Decimal(timestamp)
    else "streamer_" + Decimal(timestamp) + "_" + randomId
  }

  /** A streamer identity made for a user ends in the timestamp, which reads back. */
  lemma StreamerIdentityTimestamp(userId: string, timestamp: nat, randomId: string)
    requires userId != ""
    ensures var id := StreamerIdentity(Some(userId), timestamp, randomId);
            var digits := id[|id| - |Decimal(timestamp)|..];
            AllDigits(digits) && DigitsValue(digits) == timestamp
  {
    var id := StreamerIdentity(Some(userId), timestamp, randomId);
    assert id[|id| - |Decimal(timestamp)|..] == Decimal(timestamp);
    DecimalRoundTrip(timestamp);
  }

  /** `generateViewerIdentity`: by user id, else by display name, else as a guest. */
  function ViewerIdentity(userId: Option<string>, userName: Option<string>, timestamp: nat, randomId: string): (id: string)
    ensures |id| >= 7 && id[..7] == "viewer_"
    ensures Given(userId) ==> id[7..] == userId.value + "_" + Decimal(timestamp)
    ensures !Given(userId) && Given(userName) ==>
              id[7..] == CollapseSpaces(userName.value) + "_" + Decimal(timestamp) && NoSpace(id)
    ensures !Given(userId) && !Given(userName) ==> id[7..] == "guest_" + Decimal(timestamp) + "_" + randomId
  {
    var rest :=
      if Given(userId) then userId.value + "_" + Decimal(timestamp)
      else if Given(userName) then CollapseSpaces(userName.value) + "_" + Decimal(timestamp)
      else "guest_" + Decimal(timestamp) + "_" + randomId;
    PrefixParts("viewer_", rest);
    if !Given(userId) && Given(userName) then
      NameSuffixNoSpace(userName.value, timestamp);
      NoSpaceAppend("viewer_", rest);
      "viewer_" + rest
    else "viewer_" + rest
  }

  lemma NameSuffixNoSpace(name: string, timestamp: nat)
    ensures NoSpace(CollapseSpaces(name) + "_" + Decimal(timestamp))
  {
    DigitsNoSpace(Decimal(timestamp));
    NoSpaceAppend(CollapseSpaces(name), "_");
    NoSpaceAppend(CollapseSpaces(name) + "_", Decimal(timestamp));
  }
}
