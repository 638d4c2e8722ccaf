/** The score bands both result pages use to colour a percentage score:
    80 and above, 60 and above, and the rest. */
module Scores {

  datatype Band = High | Mid | Low

  function BandOf(score: real): Band
  {
    if score >= 80.0 then High
    else if score >= 60.0 then Mid
    else Low
  }

  /** A band's position in the order Low < Mid < High. */
  function Rank(b: Band): (r: nat)
    ensures r <= 2
  {
    match b
    case Low => 0
    case Mid => 1
    case High => 2
  }

  /** The react-bootstrap variant of a score badge. */
  function Color(score: real): (c: string)
    ensures c == "success" <==> score >= 80.0
    ensures c == "warning" <==> 60.0 <= score < 80.0
    ensures c == "danger" <==> score < 60.0
  {
    match BandOf(score)
    case High => "success"
    case Mid => "warning"
    case Low => "danger"
  }

  /** The emoji shown beside a score: party popper, thumbs up, flexed biceps,
      on the same three ranges as the colour. */
  function Emoji(score: real): (e: string)
    ensures e == "\U{1F389}" <==> Color(score) == "success"
    ensures e == "\U{1F44D}" <==> Color(score) == "warning"
    ensures e == "\U{1F4AA}" <==> Color(score) == "danger"
  {
    match BandOf(score)
    case High => "\U{1F389}"
    case Mid => "\U{1F44D}"
    case Low => "\U{1F4AA}"
  }

  /** A higher score never lands in a lower band. */
  lemma BandMonotone(x: real, y: real)
    requires x <= y
    ensures Rank(BandOf(x)) <= Rank(BandOf(y))
  {
  }

  /** Colour and emoji are two renderings of one band: equal colours give equal emoji. */
  lemma ColorDeterminesEmoji(x: real, y: real)
    requires Color(x) == Color(y)
    ensures Emoji(x) == Emoji(y)
  {
  }
}
