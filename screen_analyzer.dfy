/**
 * `generate_screen_json` of src/processing/screen_analyzer.py: the screen
 * description built from an OCR result.
 */
module ScreenAnalyzer {
  import opened Wrappers
  import opened Json
  import OcrEngine

  /** Every dictionary has a `text` entry. */
  predicate AllTexted(ds: seq<Dict>)
  {
    forall k :: 0 <= k < |ds| ==> "text" in ds[k]
  }

  function Texts(ds: seq<Dict>): (r: seq<Json>)
    requires AllTexted(ds)
    ensures |r| == |ds| && forall k :: 0 <= k < |ds| ==> r[k] == ds[k]["text"]
  {
    seq(|ds|, k requires 0 <= k < |ds| => ds[k]["text"])
  }

  /**
   * The screen description, or None when the comprehension over the OCR
   * items raises (items that are not dictionaries, or lack `text`).
   * `screenshot` is the path as given.
   */
  function ScreenJson(screenshotPath: string, ocrData: Dict, appName: Json, windowTitle: Json): Option<Dict>
  {
    match DictItems(Get(ocrData, "items", JList([])))
    case None => None
    case Some(ds) =>
      if !AllTexted(ds) then None
      else Some(map[
        "timestamp" := JNull,
        "application" := appName,
        "window_title" := windowTitle,
        "screenshot" := JStr(screenshotPath),
        "visible_text" := JList(Texts(ds)),
        "ui_elements" := JList([]),
        "context" := JStr("")])
  }

  /**
   * For an OCR result, `visible_text` is the item texts, one per item and in
   * the same order; the application and window title pass through, and the
   * other fields are fixed.
   */
  lemma ScreenJsonOfOcr(path: string, items: seq<OcrEngine.Item>, appName: Json, windowTitle: Json)
    ensures var r := ScreenJson(path, OcrEngine.ResultDict(items), appName, windowTitle);
      && r.Some?
      && r.value["visible_text"].JList?
      && |r.value["visible_text"].items| == |items|
      && (forall k :: 0 <= k < |items| ==> r.value["visible_text"].items[k] == JStr(items[k].text))
      && r.value["application"] == appName && r.value["window_title"] == windowTitle
      && r.value["screenshot"] == JStr(path) && r.value["timestamp"] == JNull
      && r.value["ui_elements"] == JList([]) && r.value["context"] == JStr("")
  {
    var ds := OcrItemsTexted(items);
  }

  /** The item dictionaries of an OCR result all have a `text` entry: the item's text. */
  lemma OcrItemsTexted(items: seq<OcrEngine.Item>) returns (ds: seq<Dict>)
    ensures DictItems(Get(OcrEngine.ResultDict(items), "items", JList([]))) == Some(ds)
    ensures AllTexted(ds) && |ds| == |items|
    ensures forall k :: 0 <= k < |items| ==> ds[k]["text"] == JStr(items[k].text)
  {
    var xs := seq(|items|, k requires 0 <= k < |items| => OcrEngine.ItemJson(items[k]));
    assert AllDicts(xs);
    ds := Fields(xs);
    assert forall k :: 0 <= k < |items| ==> ds[k]["text"] == JStr(items[k].text);
  }

  /** Without an `items` key there is no visible text. */
  lemma ScreenJsonNoItems(path: string, ocrData: Dict, appName: Json, windowTitle: Json)
    requires "items" !in ocrData
    ensures ScreenJson(path, ocrData, appName, windowTitle).Some?
    ensures ScreenJson(path, ocrData, appName, windowTitle).value["visible_text"] == JList([])
  {
    assert Fields([]) == [];
  }
}
