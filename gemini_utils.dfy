/**
 * The Gemini helpers (src/cvcutter/gemini_utils.py): the guard on the API
 * key, and the extraction of the JSON text from a model's answer (the
 * first ```` ```json ```` block, else the first ```` ``` ```` block, else the
 * whole answer). The API itself and `json.loads` are inputs.
 */
module GeminiUtils {
  import opened Wrappers
  import opened JsonValue
  import Strings

  /** `configure_gemini`: an empty key raises `ValueError`; any other is handed to the library. */
  function ConfigureGemini(apiKey: string): (r: Result<(), string>)
    ensures r.Failure? <==> apiKey == ""
  {
    if apiKey == "" then Failure("ValueError: Gemini APIキーが設定されていません。設定画面から入力してください。")
    else Success(())
  }

  const JsonFence := "```json"
  const Fence := "```"

  /** `text[start:text.find("```", start)]`: up to the closing fence, or to the last character but one without it. */
  function FenceSlice(text: string, start: nat): string
    requires start <= |text|
  {
    Strings.PySlice(text, start, Strings.FindFrom(text, Fence, start))
  }

  /** The body of a block, stripped. */
  function FenceBody(text: string, start: nat): string
    requires start <= |text|
  {
    Strings.Strip(FenceSlice(text, start))
  }

  /**
   * The body of the block opened by the first `opening` in the text; the
   * source's `+ 7` and `+ 3` are the lengths of the two openings.
   */
  function BlockBody(text: string, opening: string): string
    requires Strings.Contains(text, opening)
  {
    FenceBody(text, Strings.Find(text, opening) + |opening|)
  }

  /** The JSON text `extract_json_from_text` hands to `json.loads`. */
  function FencedText(text: string): string {
    if Strings.Contains(text, JsonFence) then BlockBody(text, JsonFence)
    else if Strings.Contains(text, Fence) then BlockBody(text, Fence)
    else Strings.Strip(text)
  }

  /** `extract_json_from_text`: the parsed JSON text, or `ValueError` when `json.loads` rejects it. */
  function ExtractJsonFromText(text: string, loads: string -> Option<Json>): (r: Result<Json, string>)
    ensures r.Success? <==> loads(FencedText(text)).Some?
    ensures r.Success? ==> r.value == loads(FencedText(text)).value
  {
    match loads(FencedText(text))
    case Some(data) => Success(data)
    case None => Failure("ValueError: Geminiの出力が正しいJSON形式ではありません")
  }

  /** A stripped Python slice of the text is a piece of it. */
  lemma SliceIsPiece(text: string, start: nat, end: int) returns (i: nat, j: nat)
    requires start <= |text| && -1 <= end <= |text| && (end != -1 ==> start <= end)
    ensures i <= j <= |text| && Strings.Strip(Strings.PySlice(text, start, end)) == text[i..j]
  {
    var b := if end != -1 then end else if start < |text| - 1 then |text| - 1 else start;
    assert Strings.PySlice(text, start, end) == text[start..b];
    i, j := StripPieceOf(text, start, b);
  }

  /** Stripping a piece of the text leaves a piece of it. */
  lemma StripPieceOf(text: string, a: nat, b: nat) returns (i: nat, j: nat)
    requires a <= b <= |text|
    ensures a <= i <= j <= b && Strings.Strip(text[a..b]) == text[i..j]
  {
    var piece := text[a..b];
    var i', j' := Strings.StripPiece(piece);
    assert Strings.Strip(piece) == piece[i'..j'];
    PieceOfPiece(text, a, b, i', j');
    i, j := a + i', a + j';
  }

  /** A piece of a piece is a piece. */
  lemma PieceOfPiece(text: string, a: nat, b: nat, i: nat, j: nat)
    requires a <= b <= |text| && i <= j <= b - a
    ensures text[a..b][i..j] == text[a + i..a + j]
  {
    forall k | 0 <= k < j - i ensures text[a..b][i..j][k] == text[a + i..a + j][k] {
      assert text[a..b][i + k] == text[a + i + k];
    }
  }

  /** The body after an opening fence is a piece of the text. */
  lemma FenceBodyIsPiece(text: string, start: nat) returns (i: nat, j: nat)
    requires start <= |text|
    ensures i <= j <= |text| && FenceBody(text, start) == text[i..j]
  {
    i, j := SliceIsPiece(text, start, Strings.FindFrom(text, Fence, start));
    assert FenceSlice(text, start) == Strings.PySlice(text, start, Strings.FindFrom(text, Fence, start));
  }

  /** The extracted text is a piece of the answer. */
  lemma FencedTextIsPiece(text: string) returns (i: nat, j: nat)
    ensures i <= j <= |text| && FencedText(text) == text[i..j]
  {
    if Strings.Contains(text, JsonFence) {
      i, j := BlockBodyIsPiece(text, JsonFence);
    } else if Strings.Contains(text, Fence) {
      i, j := BlockBodyIsPiece(text, Fence);
    } else {
      i, j := Strings.StripPiece(text);
    }
  }

  lemma BlockBodyIsPiece(text: string, opening: string) returns (i: nat, j: nat)
    requires Strings.Contains(text, opening)
    ensures i <= j <= |text| && BlockBody(text, opening) == text[i..j]
  {
    var start := Strings.Find(text, opening) + |opening|;
    assert BlockBody(text, opening) == FenceBody(text, start);
    i, j := FenceBodyIsPiece(text, start);
  }

  /** The extracted text always occurs in the answer. */
  lemma FencedTextOccurs(text: string)
    ensures Strings.Contains(text, FencedText(text))
  {
    var i, j := FencedTextIsPiece(text);
    assert Strings.OccursAt(text, text[i..j], i);
    Strings.ContainsIff(text, FencedText(text));
  }

  /** The extracted text has no whitespace left at either end. */
  lemma FencedTextStripped(text: string)
    ensures Strings.Strip(FencedText(text)) == FencedText(text)
  {
    if Strings.Contains(text, JsonFence) {
      BlockBodyStripped(text, JsonFence);
    } else if Strings.Contains(text, Fence) {
      BlockBodyStripped(text, Fence);
    } else {
      Strings.StripIdempotent(text);
    }
  }

  lemma BlockBodyStripped(text: string, opening: string)
    requires Strings.Contains(text, opening)
    ensures Strings.Strip(BlockBody(text, opening)) == BlockBody(text, opening)
  {
    FenceBodyStripped(text, Strings.Find(text, opening) + |opening|);
  }

  lemma FenceBodyStripped(text: string, start: nat)
    requires start <= |text|
    ensures Strings.Strip(FenceBody(text, start)) == FenceBody(text, start)
  {
    Strings.StripIdempotent(FenceSlice(text, start));
  }

  /** `sub` does not occur in `s` at any index from `a` up to, not including, `b`. */
  ghost predicate AbsentBetween(s: string, sub: string, a: int, b: int) {
    forall k :: a <= k < b ==> !Strings.OccursAt(s, sub, k)
  }

  /** `sub` does not occur in `s` at or after `a`. */
  ghost predicate AbsentFrom(s: string, sub: string, a: int) {
    forall k :: a <= k ==> !Strings.OccursAt(s, sub, k)
  }

  /** The search finds the first occurrence at or after `start`. */
  lemma FindFromFirst(s: string, sub: string, start: nat, e: nat)
    requires start <= e && Strings.OccursAt(s, sub, e) && AbsentBetween(s, sub, start, e)
    ensures Strings.FindFrom(s, sub, start) == e
  {
  }

  /** With no occurrence at or after `start`, the search gives -1. */
  lemma FindFromNone(s: string, sub: string, start: nat)
    requires AbsentFrom(s, sub, start)
    ensures Strings.FindFrom(s, sub, start) == -1
  {
  }

  /** With the closing fence at `e`, the body is the text up to it. */
  lemma FenceBodyClosed(text: string, start: nat, e: nat)
    requires start <= e && Strings.OccursAt(text, Fence, e) && AbsentBetween(text, Fence, start, e)
    ensures FenceBody(text, start) == Strings.Strip(text[start..e])
  {
    FenceSliceClosed(text, start, e);
  }

  lemma FenceSliceClosed(text: string, start: nat, e: nat)
    requires start <= e && Strings.OccursAt(text, Fence, e) && AbsentBetween(text, Fence, start, e)
    ensures FenceSlice(text, start) == text[start..e]
  {
    FindFromFirst(text, Fence, start, e);
  }

  /**
   * With no closing fence, `find` gives -1 and the slice `text[start:-1]`
   * drops the last character of the answer.
   */
  lemma FenceBodyUnclosed(text: string, start: nat)
    requires start <= |text| && AbsentFrom(text, Fence, start)
    ensures FenceBody(text, start) == if start < |text| - 1 then Strings.Strip(text[start..|text| - 1]) else Strings.Strip([])
  {
    FenceSliceUnclosed(text, start);
  }

  lemma FenceSliceUnclosed(text: string, start: nat)
    requires start <= |text| && AbsentFrom(text, Fence, start)
    ensures FenceSlice(text, start) == if start < |text| - 1 then text[start..|text| - 1] else []
  {
    FindFromNone(text, Fence, start);
  }

  /** A ```` ```json ```` fence is also a plain fence. */
  lemma JsonFenceIsFence(text: string, k: int)
    requires Strings.OccursAt(text, JsonFence, k)
    ensures Strings.OccursAt(text, Fence, k)
  {
    assert text[k..k + 3] == text[k..k + 7][..3];
  }

  /** The first ```` ```json ```` block wins, wherever plain fences stand. */
  lemma JsonFenceFirst(text: string, i: nat)
    requires Strings.OccursAt(text, JsonFence, i) && AbsentBetween(text, JsonFence, 0, i)
    ensures FencedText(text) == FenceBody(text, i + 7)
  {
    Strings.ContainsIff(text, JsonFence);
    FindFromFirst(text, JsonFence, 0, i);
  }

  /** Without one, the first plain block is used. */
  lemma PlainFenceNext(text: string, i: nat)
    requires AbsentFrom(text, JsonFence, 0)
    requires Strings.OccursAt(text, Fence, i) && AbsentBetween(text, Fence, 0, i)
    ensures FencedText(text) == FenceBody(text, i + 3)
  {
    Strings.ContainsIff(text, JsonFence);
    Strings.ContainsIff(text, Fence);
    FindFromFirst(text, Fence, 0, i);
  }

  /** Without any fence, the whole answer, stripped, is used. */
  lemma NoFenceWhole(text: string)
    requires AbsentFrom(text, Fence, 0)
    ensures FencedText(text) == Strings.Strip(text)
  {
    forall k | Strings.OccursAt(text, JsonFence, k) ensures false {
      JsonFenceIsFence(text, k);
    }
    Strings.ContainsIff(text, JsonFence);
    Strings.ContainsIff(text, Fence);
  }
}
