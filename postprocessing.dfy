/** Joining the page texts of a document into one string (postprocessing.py). */
module Postprocessing {
  import opened Records

  /** What follows every page's text, the last page's included. */
  const PageSeparator := "\n\n"

  /** The combined text: every record's text, each followed by a blank line, in order. */
  function Combined(records: seq<Entry>): string
  {
    if records == [] then "" else TextOf(records[0]) + PageSeparator + Combined(records[1..])
  }

  /** The total length of the records' texts. */
  function TotalTextLength(records: seq<Entry>): nat
  {
    if records == [] then 0 else |TextOf(records[0])| + TotalTextLength(records[1..])
  }

  /** Combining distributes over concatenation of the record lists. */
  lemma {:induction false} CombinedAppend(a: seq<Entry>, b: seq<Entry>)
    ensures Combined(a + b) == Combined(a) + Combined(b)
    decreases |a|
  {
    if a == [] {
      assert a + b == b;
    } else {
      assert (a + b)[0] == a[0];
      assert (a + b)[1..] == a[1..] + b;
      CombinedAppend(a[1..], b);
    }
  }

  /** The combined text is as long as all texts together plus two characters per record. */
  lemma {:induction false} CombinedLength(records: seq<Entry>)
    ensures |Combined(records)| == TotalTextLength(records) + 2 * |records|
    decreases |records|
  {
    if records != [] {
      CombinedLength(records[1..]);
    }
  }

  /** Every non-empty combination ends with the separator, after the last page too;
      no records combine to the empty string. */
  lemma CombinedEnding(records: seq<Entry>)
    ensures records == [] <==> Combined(records) == ""
    ensures records != [] ==> Combined(records)[|Combined(records)| - 2..] == PageSeparator
  {
    CombinedLength(records);
    if records != [] {
      var n := |records|;
      var last := records[n - 1];
      assert records == records[..n - 1] + [last];
      CombinedAppend(records[..n - 1], [last]);
      assert Combined([last]) == TextOf(last) + PageSeparator + "";
    }
  }

  /** A record without a "text" key contributes exactly the separator. */
  lemma MissingTextContributesSeparator(before: seq<Entry>, page: Option<string>, after: seq<Entry>)
    ensures Combined(before + [Entry(page, None)] + after) == Combined(before) + PageSeparator + Combined(after)
  {
    var e := Entry(page, None);
    CombinedAppend(before + [e], after);
    CombinedAppend(before, [e]);
    assert Combined([e]) == "" + PageSeparator + "";
  }

  /** `combine_texts`: appends each record's text and the separator to an accumulator. */
  method CombineTexts(extractedTexts: seq<Entry>) returns (combinedText: string)
    ensures combinedText == Combined(extractedTexts)
  {
    combinedText := "";
    var i := 0;
    while i < |extractedTexts|
      invariant 0 <= i <= |extractedTexts|
      invariant combinedText == Combined(extractedTexts[..i])
    {
      var item := extractedTexts[i];
      var pageText := item.text.GetOr("");
      assert extractedTexts[..i + 1] == extractedTexts[..i] + [item];
      CombinedAppend(extractedTexts[..i], [item]);
      assert Combined([item]) == pageText + PageSeparator + "";
      combinedText := combinedText + pageText + PageSeparator;
      i := i + 1;
    }
    assert extractedTexts[..i] == extractedTexts;
  }

  /** `postprocess_texts`: the combined text, whatever the output format; writing the
      file is not part of this model. */
  method PostprocessTexts(extractedTexts: seq<Entry>, outputFormat: string := "plain-text",
                          outputPath: string := "output_text")
    returns (combinedText: string)
    ensures combinedText == Combined(extractedTexts)
  {
    combinedText := CombineTexts(extractedTexts);
  }
}
