/**
 * Query strings as `URLSearchParams` builds them: an ordered list of
 * name/value pairs, appended one at a time, rendered as `name=value` pieces
 * joined by `&`. Percent-encoding is not modelled; the round trip below is
 * stated for names and values that need none of it.
 */
module QueryString {
  import opened Wrappers
  import opened JsText

  datatype Param = Param(name: string, value: string)

  /** A candidate parameter: its name and its value, absent when the caller left it out. */
  type Candidate = (string, Option<string>)

  /** A value JavaScript treats as truthy in `if (params.x)`: present and not the empty string. */
  predicate Truthy(v: Option<string>) {
    v.Some? && v.value != ""
  }

  /** A numeric parameter as the text `toString` gives it; zero and absence are both falsy. */
  function NumberValue(n: Option<int>): (v: Option<string>)
    ensures Truthy(v) <==> n.Some? && n.value != 0
    ensures Truthy(v) ==> v.value == IntToString(n.value)
  {
    if n.Some? && n.value != 0 then Some(IntToString(n.value)) else None
  }

  /**
   * The parameters a chain of `if (params.x) query.append('x', …)` statements
   * produces from the candidates, in the candidates' order.
   */
  function Present(candidates: seq<Candidate>): (q: seq<Param>)
    ensures |q| <= |candidates|
    ensures forall p :: p in q <==>
              exists i :: 0 <= i < |candidates| && Truthy(candidates[i].1) &&
                          p == Param(candidates[i].0, candidates[i].1.value)
  {
    if candidates == [] then []
    else
      var rest := Present(candidates[1..]);
      assert forall i :: 1 <= i < |candidates| ==> candidates[i] == candidates[1..][i - 1];
      Head(candidates[0]) + rest
  }

  /** What one candidate contributes. */
  function Head(c: Candidate): seq<Param> {
    if Truthy(c.1) then [Param(c.0, c.1.value)] else []
  }

  /** Earlier candidates come first: the result of a chain is the results of its parts in order. */
  lemma {:induction false} PresentAppend(c1: seq<Candidate>, c2: seq<Candidate>)
    ensures Present(c1 + c2) == Present(c1) + Present(c2)
  {
    if c1 != [] {
      assert (c1 + c2)[0] == c1[0];
      assert (c1 + c2)[1..] == c1[1..] + c2;
      PresentAppend(c1[1..], c2);
      assert Present(c1 + c2) == Head(c1[0]) + Present(c1[1..] + c2);
      assert Present(c1) == Head(c1[0]) + Present(c1[1..]);
      assert Head(c1[0]) + (Present(c1[1..]) + Present(c2)) == (Head(c1[0]) + Present(c1[1..])) + Present(c2);
    } else {
      assert c1 + c2 == c2;
    }
  }

  /** One `if (params.x) append` step. */
  lemma PresentOne(name: string, value: Option<string>)
    ensures Present([(name, value)]) == if Truthy(value) then [Param(name, value.value)] else []
  {
    assert [(name, value)][1..] == [];
  }

  lemma Present2(c: seq<Candidate>)
    requires |c| == 2
    ensures Present(c) == Head(c[0]) + Head(c[1])
  {
    assert c[1..][0] == c[1] && c[1..][1..] == [];
  }

  lemma Present3(c: seq<Candidate>)
    requires |c| == 3
    ensures Present(c) == Head(c[0]) + Head(c[1]) + Head(c[2])
  {
    Present2(c[1..]);
    assert c[1..][0] == c[1] && c[1..][1] == c[2];
  }

  lemma Present4(c: seq<Candidate>)
    requires |c| == 4
    ensures Present(c) == Head(c[0]) + Head(c[1]) + Head(c[2]) + Head(c[3])
  {
    Present2(c[..2]);
    Present2(c[2..]);
    PresentAppend(c[..2], c[2..]);
    assert c == c[..2] + c[2..];
  }

  lemma Present5(c: seq<Candidate>)
    requires |c| == 5
    ensures Present(c) == Head(c[0]) + Head(c[1]) + Head(c[2]) + Head(c[3]) + Head(c[4])
  {
    Present3(c[..3]);
    Present2(c[3..]);
    PresentAppend(c[..3], c[3..]);
    assert c == c[..3] + c[3..];
  }

  /** `name=value`. */
  function Render(p: Param): string {
    p.name + "=" + p.value
  }

  /** `URLSearchParams.prototype.toString` without percent-encoding. */
  function Serialize(q: seq<Param>): string {
    Join(seq(|q|, i requires 0 <= i < |q| => Render(q[i])), '&')
  }

  /** The index of the first `c` in `s`, or `|s|`. */
  function FirstIndex(s: string, c: char): (k: nat)
    ensures k <= |s|
    ensures forall i :: 0 <= i < k ==> s[i] != c
    ensures k < |s| ==> s[k] == c
  {
    if s == [] || s[0] == c then 0 else 1 + FirstIndex(s[1..], c)
  }

  /** One `name=value` piece, split at the first `=`. */
  function ParseParam(s: string): Param {
    var k := FirstIndex(s, '=');
    if k == |s| then Param(s, "") else Param(s[..k], s[k + 1..])
  }

  /** Reads a query string back into its parameters. */
  function Parse(s: string): seq<Param> {
    if s == "" then []
    else
      var pieces := Split(s, '&');
      seq(|pieces|, i requires 0 <= i < |pieces| => ParseParam(pieces[i]))
  }

  /** A parameter that percent-encoding would leave alone as far as the separators go. */
  predicate Plain(p: Param) {
    '&' !in p.name && '=' !in p.name && '&' !in p.value
  }

  lemma ParseRender(p: Param)
    requires Plain(p)
    ensures ParseParam(Render(p)) == p
  {
    var s := Render(p);
    assert s[|p.name|] == '=';
    assert s[..|p.name|] == p.name;
    assert s[|p.name| + 1..] == p.value;
  }

  /** Serialising and parsing back gives the same parameters, in the same order. */
  lemma {:induction false} ParseSerialize(q: seq<Param>)
    requires forall i :: 0 <= i < |q| ==> Plain(q[i])
    ensures Parse(Serialize(q)) == q
  {
    if q != [] {
      var pieces := seq(|q|, i requires 0 <= i < |q| => Render(q[i]));
      SplitJoin(pieces, '&');
      assert |Serialize(q)| >= |pieces[0]|;
      forall i | 0 <= i < |q|
        ensures ParseParam(pieces[i]) == q[i]
      {
        ParseRender(q[i]);
      }
    }
  }
}
