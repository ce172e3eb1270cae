/**
 * Clock-style texts: zero-padded numbers joined by colons, as the stream
 * page and the media room display elapsed time, and how such a text reads
 * back as a number of seconds.
 */
module ClockText {
  import opened JsText

  /** `n.toString().padStart(2, '0')`. */
  function Padded(n: int): string {
    PadStart2(IntToString(n))
  }

  /** A padded non-negative number is digits only, so it holds no colon. */
  lemma PaddedDigits(n: nat)
    ensures AllDigits(Padded(n)) && DigitsValue(Padded(n)) == n && PieceValue(Padded(n)) == n
    ensures |Padded(n)| >= 2 && ':' !in Padded(n)
  {
    PaddedRoundTrip(n);
  }

  function PieceValue(p: string): nat {
    if AllDigits(p) then DigitsValue(p) else 0
  }

  /** The pieces read as base-60 digits, the last one least significant. */
  function BaseSixty(pieces: seq<string>): nat {
    if pieces == [] then 0 else BaseSixty(pieces[..|pieces| - 1]) * 60 + PieceValue(pieces[|pieces| - 1])
  }

  /** Reads `MM:SS` or `HH:MM:SS` back as seconds. */
  function ParseClock(text: string): nat {
    BaseSixty(Split(text, ':'))
  }

  /** `MM:SS`. */
  function Clock2(m: int, s: int): string {
    Padded(m) + ":" + Padded(s)
  }

  /** `HH:MM:SS`. */
  function Clock3(h: int, m: int, s: int): string {
    Padded(h) + ":" + Padded(m) + ":" + Padded(s)
  }

  /** `MM:SS` splits at its colon into the two padded numbers. */
  lemma Clock2Pieces(m: nat, s: nat)
    ensures Split(Clock2(m, s), ':') == [Padded(m), Padded(s)]
  {
    PaddedDigits(m);
    PaddedDigits(s);
    JoinTwo(Padded(m), Padded(s), ':');
    SplitJoin([Padded(m), Padded(s)], ':');
  }

  /** `HH:MM:SS` splits at its colons into the three padded numbers. */
  lemma Clock3Pieces(h: nat, m: nat, s: nat)
    ensures Split(Clock3(h, m, s), ':') == [Padded(h), Padded(m), Padded(s)]
  {
    PaddedDigits(h);
    PaddedDigits(m);
    PaddedDigits(s);
    JoinThree(Padded(h), Padded(m), Padded(s), ':');
    SplitJoin([Padded(h), Padded(m), Padded(s)], ':');
  }

  /** `MM:SS` reads back as its seconds and splits into two fields of at least two digits. */
  lemma ClockRoundTrip2(m: nat, s: nat)
    ensures ParseClock(Clock2(m, s)) == m * 60 + s
    ensures Split(Clock2(m, s), ':') == [Padded(m), Padded(s)]
    ensures forall p :: p in Split(Clock2(m, s), ':') ==> |p| >= 2 && AllDigits(p)
  {
    var pieces := [Padded(m), Padded(s)];
    Clock2Pieces(m, s);
    PaddedDigits(m);
    PaddedDigits(s);
    BaseSixtyTwo(Padded(m), Padded(s));
  }

  /** `HH:MM:SS` likewise, with three fields. */
  lemma ClockRoundTrip3(h: nat, m: nat, s: nat)
    ensures ParseClock(Clock3(h, m, s)) == h * 3600 + m * 60 + s
    ensures Split(Clock3(h, m, s), ':') == [Padded(h), Padded(m), Padded(s)]
    ensures forall p :: p in Split(Clock3(h, m, s), ':') ==> |p| >= 2 && AllDigits(p)
  {
    var pieces := [Padded(h), Padded(m), Padded(s)];
    Clock3Pieces(h, m, s);
    PaddedDigits(h);
    PaddedDigits(m);
    PaddedDigits(s);
    BaseSixtyThree(Padded(h), Padded(m), Padded(s));
  }

  lemma BaseSixtyTwo(a: string, b: string)
    ensures BaseSixty([a, b]) == PieceValue(a) * 60 + PieceValue(b)
  {
    assert [a, b][..1] == [a] && [a][..0] == [];
    assert BaseSixty([a]) == PieceValue(a);
  }

  lemma BaseSixtyThree(a: string, b: string, c: string)
    ensures BaseSixty([a, b, c]) == PieceValue(a) * 3600 + PieceValue(b) * 60 + PieceValue(c)
  {
    assert [a, b, c][..2] == [a, b];
    BaseSixtyTwo(a, b);
  }

  /** Division by 3600 is unique. */
  lemma HourRemainder(s: int, k: int, q: int)
    requires 0 <= q < 3600 && s == k * 3600 + q
    ensures s % 3600 == q && s / 3600 == k
  {
  }

  /** Division by 60 is unique. */
  lemma MinuteRemainder(s: int, k: int, q: int)
    requires 0 <= q < 60 && s == k * 60 + q
    ensures s % 60 == q && s / 60 == k
  {
  }

  /** Hours, minutes of the hour and seconds of the minute recombine to the whole. */
  lemma HoursSplit(s: nat)
    ensures s % 3600 / 60 < 60
    ensures s == (s / 3600) * 3600 + (s % 3600 / 60) * 60 + s % 60
  {
    var h, q := s / 3600, s % 3600;
    assert q == (q / 60) * 60 + q % 60;
    assert s == (h * 60 + q / 60) * 60 + q % 60;
    MinuteRemainder(s, h * 60 + q / 60, q % 60);
  }
}
