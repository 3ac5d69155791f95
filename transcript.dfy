/** Turning the segments the engine produced into the response: the joined
    `text` and, for the upload endpoint, the per-segment rows. The timing and
    probability values are floats the server copies without looking at them. */
module Transcript {
  import opened Text

  /** One segment as the engine yields it. */
  datatype Segment = Segment(start: real, end: real, text: string, avgLogprob: real)

  /** The summary the engine returns beside the segments. */
  datatype Info = Info(language: string, languageProbability: real, duration: real)

  /** One entry of the upload response's `segments` list. */
  datatype SegmentRow = SegmentRow(start: real, end: real, text: string, confidence: real)

  /** The stripped texts of the segments, in order. */
  function StrippedTexts(segments: seq<Segment>): (texts: seq<string>)
    ensures |texts| == |segments|
    ensures forall i :: 0 <= i < |segments| ==> texts[i] == Strip(segments[i].text)
  {
    seq(|segments|, i requires 0 <= i < |segments| => Strip(segments[i].text))
  }

  /** `" ".join(segment.text.strip() for segment in segments_list)`. */
  function FullText(segments: seq<Segment>): (text: string)
    ensures segments == [] ==> text == ""
    ensures segments != [] ==> |text| == TotalLength(StrippedTexts(segments)) + |segments| - 1
  {
    var texts := StrippedTexts(segments);
    if texts == [] then Join(texts, ' ')
    else
      JoinLength(texts, ' ');
      Join(texts, ' ')
  }

  /** The response's `segments` list: one row per segment, in the same
      order, carrying the segment's times, its stripped text and its average
      log-probability as confidence. */
  function Rows(segments: seq<Segment>): (rows: seq<SegmentRow>)
    ensures |rows| == |segments|
    ensures forall i :: 0 <= i < |segments| ==>
              && rows[i].start == segments[i].start && rows[i].end == segments[i].end
              && rows[i].text == Strip(segments[i].text)
              && rows[i].confidence == segments[i].avgLogprob
  {
    seq(|segments|, i requires 0 <= i < |segments| =>
      var s := segments[i];
      SegmentRow(s.start, s.end, Strip(s.text), s.avgLogprob))
  }

  /** No segments give the empty text; one segment gives its stripped text. */
  lemma FullTextSmall(segments: seq<Segment>)
    ensures segments == [] ==> FullText(segments) == ""
    ensures |segments| == 1 ==> FullText(segments) == Strip(segments[0].text)
  {
  }

  /** `full_text` is the rows' texts joined in row order: the two parts of
      the upload response agree. */
  lemma FullTextMatchesRows(segments: seq<Segment>)
    ensures FullText(segments)
            == Join(seq(|segments|, i requires 0 <= i < |segments| => Rows(segments)[i].text), ' ')
  {
    assert seq(|segments|, i requires 0 <= i < |segments| => Rows(segments)[i].text)
           == StrippedTexts(segments);
  }

  /** Where segment `i`'s stripped text stands in `full_text`: at the sum of
      the earlier stripped lengths plus one space for each, preceded (unless
      it is first) and followed (unless it is last) by a single space. */
  lemma FullTextPiece(segments: seq<Segment>, i: nat)
    requires i < |segments|
    ensures var o := Offset(StrippedTexts(segments), i);
            var piece := Strip(segments[i].text);
            var t := FullText(segments);
            && o + |piece| <= |t|
            && t[o..o + |piece|] == piece
            && (i + 1 < |segments| ==> o + |piece| < |t| && t[o + |piece|] == ' ')
  {
    JoinNeighbourhood(StrippedTexts(segments), ' ', i);
  }

  /** `full_text` has no whitespace at either end when the first and last
      segments' stripped texts are non-empty: every piece is stripped, and
      only single spaces are added between pieces. */
  lemma FullTextEnds(segments: seq<Segment>)
    requires segments != []
    requires Strip(segments[0].text) != "" && Strip(segments[|segments| - 1].text) != ""
    ensures var t := FullText(segments); t != "" && !IsSpace(t[0]) && !IsSpace(t[|t| - 1])
  {
    StripEnds(segments[0].text);
    StripEnds(segments[|segments| - 1].text);
    JoinEnds(StrippedTexts(segments), ' ');
  }
}
