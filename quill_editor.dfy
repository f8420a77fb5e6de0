/**
 * `QuillEditorController`: the editor's current delta text, pushed in by
 * the web page, and the listener told of every push. JSON parsing of the
 * text is a function handed in, giving the decoded document or `None`
 * when the text is not a JSON object; a listener is known only by
 * identity, and what it receives is recorded.
 */
module QuillEditors {
  import opened Wrappers
  import opened Strings
  import Quill

  datatype ListenerId = ListenerId(id: nat)

  /** An op whose `insert` is present and not blank once trimmed */
  predicate HasText(op: Option<Quill.JsonOp>) {
    op.Some? && op.value.insert.Some? && !IsBlank(op.value.insert.value)
  }

  /**
   * Text was found: the content parsed, `ops` is an array, and some op has
   * text with only JSON objects before it (reading an element that is not
   * an object throws, which ends the scan with `true`).
   */
  predicate FoundText(decoded: Option<Quill.JsonDoc>) {
    decoded.Some? && decoded.value.ops.Some?
    && exists i :: 0 <= i < |decoded.value.ops.value| && HasText(decoded.value.ops.value[i])
                   && forall j :: 0 <= j < i ==> decoded.value.ops.value[j].Some?
  }

  /** Without an element that is not an object, text anywhere counts. */
  lemma FoundTextInObjects(doc: Quill.JsonDoc)
    requires doc.ops.Some? && forall j :: 0 <= j < |doc.ops.value| ==> doc.ops.value[j].Some?
    ensures FoundText(Some(doc)) <==> exists i :: 0 <= i < |doc.ops.value| && HasText(doc.ops.value[i])
  {
  }

  /** The delta the submit screen builds from a description has text exactly when the description is not blank. */
  lemma ConvertedHasText(s: string)
    ensures FoundText(Some(Quill.ConvertStringToQuillJson(s))) <==> !IsBlank(s)
  {
    var doc := Quill.ConvertStringToQuillJson(s);
    assert doc.ops.Some? && |doc.ops.value| == 1;
    assert IsBlank(s + "\n") <==> IsBlank(s) by {
      assert forall i :: 0 <= i < |s| ==> (s + "\n")[i] == s[i];
      assert (s + "\n")[|s|] == '\n';
    }
    if !IsBlank(s) {
      assert HasText(doc.ops.value[0]);
    }
  }

  class QuillEditorController {
    const parse: string -> Option<Quill.JsonDoc>
    var content: string
    var listener: Option<ListenerId>
    /** Every call of the listener: who was called, with what */
    var notified: seq<(ListenerId, Option<string>)>

    constructor (parse: string -> Option<Quill.JsonDoc>)
      ensures this.parse == parse && content == "" && listener.None? && notified == []
    {
      this.parse := parse;
      content := "";
      listener := None;
      notified := [];
    }

    /** `getContent()`: the last stored value */
    function GetContent(): string
      reads this
    {
      content
    }

    /** `contentIsEmpty()`: a scan of the ops that stops at the first one with text */
    method ContentIsEmpty() returns (empty: bool)
      ensures !empty <==> FoundText(parse(content))
      ensures parse(content).None? ==> empty
      ensures parse(content).Some? && parse(content).value.ops.None? ==> empty
    {
      var decoded := parse(content);
      if decoded.None? || decoded.value.ops.None? {
        return true;
      }
      var opsArray := decoded.value.ops.value;
      var i := 0;
      while i < |opsArray|
        invariant 0 <= i <= |opsArray|
        invariant forall j :: 0 <= j < i ==> opsArray[j].Some? && !HasText(opsArray[j])
      {
        var opObject := opsArray[i];
        if opObject.None? {
          return true;
        }
        if opObject.value.insert.Some? {
          var insertContent := opObject.value.insert.value;
          if !IsBlank(insertContent) {
            return false;
          }
        }
        i := i + 1;
      }
      return true;
    }

    method SetListener(listener: ListenerId)
      modifies this
      ensures this.listener == Some(listener) && content == old(content) && notified == old(notified)
    {
      this.listener := Some(listener);
    }

    /** `setContent(content)`: null is stored as `""`, but the listener gets the argument as it came. */
    method SetContent(content: Option<string>)
      modifies this
      ensures this.content == content.GetOr("") && listener == old(listener)
      ensures notified == old(notified) + (if listener.Some? then [(listener.value, content)] else [])
    {
      this.content := content.GetOr("");
      if listener.Some? {
        notified := notified + [(listener.value, content)];
      }
    }

    /** The editor's `onDispose`: the content is reset to `""`, and the listener told so. */
    method OnDispose()
      modifies this
      ensures content == "" && listener == old(listener)
      ensures notified == old(notified) + (if listener.Some? then [(listener.value, Some(""))] else [])
    {
      SetContent(Some(""));
    }
  }
}
