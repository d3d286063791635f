/**
 * The OCR step of src/processing/ocr_engine.py: which inputs `extract`
 * accepts, and how the rows Tesseract reports become the items it returns.
 *
 * Opening the image, the grayscale and sharpening preprocessing and
 * Tesseract itself are one oracle: the rows it reports, or the failure it
 * raises.
 */
module OcrEngine {
  import opened Wrappers
  import opened Json
  import opened Strings

  /** What `extract` may be given; an array carries its numpy shape. */
  datatype ImageInput = ImagePath(path: string) | ArrayImage(shape: seq<nat>) | PilImage | OtherInput

  /**
   * One row of Tesseract's dictionary output: the text, the confidence
   * (None when `float` rejects the reported value) and the bounding box.
   */
  datatype Entry = Entry(text: string, conf: Option<real>, left: int, top: int, width: int, height: int)

  /** A run of Tesseract: its rows, the binary not found, or any other exception. */
  datatype TesseractRun = Rows(entries: seq<Entry>) | TesseractMissing | TesseractFailed

  /** An item of the result: stripped text, confidence and `[left, top, width, height]`. */
  datatype Item = Item(text: string, conf: Json, bbox: seq<int>)

  const MinConfidence: real := 50.0

  /** A colour array (three channels) or a grayscale one (two dimensions); any path or PIL image. */
  predicate Supported(input: ImageInput)
  {
    match input
    case ArrayImage(shape) => (|shape| == 3 && shape[2] == 3) || |shape| == 2
    case OtherInput => false
    case _ => true
  }

  /** The confidence of a row; an unparseable one counts as 0.0. */
  function Confidence(e: Entry): real
  {
    if e.conf.Some? then e.conf.value else 0.0
  }

  /** A row is kept when its stripped text is not empty and its confidence is at least 50. */
  predicate Keep(e: Entry)
  {
    Strip(e.text) != "" && Confidence(e) >= MinConfidence
  }

  function ToItem(e: Entry): Item
  {
    Item(Strip(e.text), JReal(Confidence(e)), [e.left, e.top, e.width, e.height])
  }

  /** The items the loop over Tesseract's rows appends, in row order. */
  function KeptItems(entries: seq<Entry>): seq<Item>
  {
    if entries == [] then []
    else
      var last := entries[|entries| - 1];
      KeptItems(entries[..|entries| - 1]) + (if Keep(last) then [ToItem(last)] else [])
  }

  /** The filtering loop of `extract`. */
  method FilterEntries(entries: seq<Entry>) returns (items: seq<Item>)
    ensures items == KeptItems(entries)
  {
    items := [];
    var i := 0;
    while i < |entries|
      invariant 0 <= i <= |entries|
      invariant items == KeptItems(entries[..i])
    {
      var e := entries[i];
      assert entries[..i + 1][..i] == entries[..i];
      if Strip(e.text) != "" && Confidence(e) >= MinConfidence {
        items := items + [ToItem(e)];
      }
      i := i + 1;
    }
    assert entries[..i] == entries;
  }

  /**
   * The filter keeps order and decides row by row: the items of two runs of
   * rows are the items of the first followed by those of the second, and a
   * single row contributes its item exactly when it is kept.
   */
  lemma {:induction false} KeptItemsConcat(a: seq<Entry>, b: seq<Entry>)
    ensures KeptItems(a + b) == KeptItems(a) + KeptItems(b)
    decreases |b|
  {
    if b == [] {
      assert a + b == a;
    } else {
      var b' := b[..|b| - 1];
      assert (a + b)[..|a + b| - 1] == a + b';
      KeptItemsConcat(a, b');
    }
  }

  lemma KeptItemsSingle(e: Entry)
    ensures KeptItems([e]) == (if Keep(e) then [ToItem(e)] else [])
  {
    assert [e][..0] == [];
  }

  /** A row whose confidence cannot be parsed never shows up in the result. */
  lemma UnparseableDropped(a: seq<Entry>, e: Entry, b: seq<Entry>)
    requires e.conf.None?
    ensures KeptItems(a + [e] + b) == KeptItems(a + b)
  {
    KeptItemsConcat(a + [e], b);
    KeptItemsConcat(a, [e]);
    KeptItemsSingle(e);
    KeptItemsConcat(a, b);
  }

  /**
   * There are never more items than rows, and every item has non-empty text
   * without surrounding whitespace and a confidence of at least 50.
   */
  lemma {:induction false} KeptItemsWellFormed(entries: seq<Entry>)
    ensures |KeptItems(entries)| <= |entries|
    ensures forall k :: 0 <= k < |KeptItems(entries)| ==>
      var it := KeptItems(entries)[k];
      && it.text != "" && it.text[0] !in Whitespace && it.text[|it.text| - 1] !in Whitespace
      && it.conf.JReal? && it.conf.r >= MinConfidence && |it.bbox| == 4
  {
    if entries != [] {
      var last := entries[|entries| - 1];
      KeptItemsWellFormed(entries[..|entries| - 1]);
      StripTrimmed(last.text, Whitespace);
    }
  }

  /**
   * `extract`: the items of the returned dictionary. An unsupported input, a
   * missing Tesseract or any exception gives no items.
   */
  function Extract(input: ImageInput, run: TesseractRun): seq<Item>
  {
    if !Supported(input) then []
    else
      match run
      case Rows(entries) => KeptItems(entries)
      case _ => []
  }

  /** The failure paths of `extract` all give `{"items": []}`. */
  lemma ExtractFailures(input: ImageInput, run: TesseractRun)
    ensures (input.ArrayImage? && |input.shape| != 2 && !(|input.shape| == 3 && input.shape[2] == 3)) ==> Extract(input, run) == []
    ensures input.OtherInput? ==> Extract(input, run) == []
    ensures run.TesseractMissing? || run.TesseractFailed? ==> Extract(input, run) == []
  {
  }

  function ItemJson(it: Item): Json
  {
    JObj(map["text" := JStr(it.text), "conf" := it.conf,
             "bbox" := JList(seq(|it.bbox|, k requires 0 <= k < |it.bbox| => JInt(it.bbox[k])))])
  }

  /** The dictionary `extract` returns. */
  function ResultDict(items: seq<Item>): Dict
  {
    map["items" := JList(seq(|items|, k requires 0 <= k < |items| => ItemJson(items[k])))]
  }
}
