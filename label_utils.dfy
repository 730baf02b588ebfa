/**
  Truncation detection for text labels (`LabelUtils`).

  The toolkit lays a label out and, when its full text does not fit, renders a
  shortened text in the label's `.text` sub-node. The scene-graph lookup of
  that sub-node is an input here: `None` when the lookup finds nothing,
  `Some(rendered)` with the sub-node's text otherwise. Java `String.equals`
  is sequence equality and `isEmpty()` is length zero.
*/
module LabelUtils {
  import opened Wrappers

  /** `isLabelTruncated`: the label reads as truncated when its rendered text is
      present, non-empty and not the label's full text. */
  function IsLabelTruncated(original: string, textNode: Option<string>): (truncated: bool)
    ensures truncated <==> textNode.Some? && textNode.value != [] && textNode.value != original
  {
    match textNode
    case None => false
    case Some(rendered) => |rendered| > 0 && original != rendered
  }

  /** A label whose text node cannot be found is never reported truncated. */
  lemma AbsentNodeNotTruncated(original: string)
    ensures !IsLabelTruncated(original, None)
  {
  }

  /** An empty rendering is never reported truncated, whatever the full text. */
  lemma EmptyRenderingNotTruncated(original: string)
    ensures !IsLabelTruncated(original, Some([]))
  {
  }

  /** A rendering of the whole text is never reported truncated. */
  lemma FullRenderingNotTruncated(original: string)
    ensures !IsLabelTruncated(original, Some(original))
  {
  }

  /** A non-empty rendering shorter than the full text, such as a clipped
      prefix with an ellipsis when it is shorter, is always reported truncated. */
  lemma ShorterRenderingTruncated(original: string, rendered: string)
    requires 0 < |rendered| < |original|
    ensures IsLabelTruncated(original, Some(rendered))
  {
  }

  /** The caller-owned boolean property that `registerTruncatedLabelListener`
      keeps up to date, with the listener's callback. */
  class TruncationListener {
    var isTruncated: bool

    constructor (initial: bool)
      ensures isTruncated == initial
    {
      isTruncated := initial;
    }

    /** The callback run on each change of the label's layout flag. Unlike
        `IsLabelTruncated` it dereferences the text node without a null check,
        so the node must be present. The previous value of the property plays
        no part in the new one. */
    method OnLayoutChange(original: string, textNode: Option<string>)
      requires textNode.Some?
      modifies this`isTruncated
      ensures isTruncated == IsLabelTruncated(original, textNode)
      ensures isTruncated <==> textNode.value != [] && textNode.value != original
    {
      var rendered := textNode.value;
      isTruncated := |rendered| > 0 && original != rendered;
    }
  }

  /** Two callbacks on the same label state leave the value one callback
      leaves, whatever the property held before: the update is idempotent. */
  method OnLayoutChangeTwice(listener: TruncationListener, original: string, textNode: Option<string>)
      returns (first: bool)
    requires textNode.Some?
    modifies listener
    ensures first == IsLabelTruncated(original, textNode)
    ensures listener.isTruncated == first
  {
    listener.OnLayoutChange(original, textNode);
    first := listener.isTruncated;
    listener.OnLayoutChange(original, textNode);
  }
}
