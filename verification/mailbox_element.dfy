/** Mailbox elements: a sender, a message id, a forwarding stack and the
    content. Stream messages have their message id moved into the matching
    mailbox category on construction; the correctors themselves are
    parameters. */
module MailboxElement {
  import opened Wrappers

  type ActorId = nat
  type MessageId = nat

  /** The type token of a message's content. */
  datatype TypeToken = DownstreamMsg | UpstreamMsg | EmptyTuple | OtherType(n: nat)

  /** A message; `vals == None` stands for a message without content
      (a null data pointer). */
  datatype Message = Message(token: TypeToken, vals: Option<seq<nat>>)

  /** What an empty `message_builder` produces. */
  const EmptyMessage := Message(EmptyTuple, Some([]))

  /** `mailbox_category_corrector<downstream_msg>` and
      `mailbox_category_corrector<upstream_msg>`. */
  datatype Correctors = Correctors(downstream: MessageId -> MessageId, upstream: MessageId -> MessageId)

  /** `dynamic_category_correction`. */
  function CategoryCorrection(msg: Message, mid: MessageId, corr: Correctors): (r: MessageId)
    ensures msg.token.DownstreamMsg? ==> r == corr.downstream(mid)
    ensures msg.token.UpstreamMsg? ==> r == corr.upstream(mid)
    ensures !msg.token.DownstreamMsg? && !msg.token.UpstreamMsg? ==> r == mid
  {
    match msg.token
    case DownstreamMsg => corr.downstream(mid)
    case UpstreamMsg => corr.upstream(mid)
    case _ => mid
  }

  datatype Element = Element(sender: Option<ActorId>, mid: MessageId, stages: seq<ActorId>, msg: Message)

  /** `make_mailbox_element`: the id is corrected from the message as given;
      a message without content is replaced by an empty one. */
  function MakeMailboxElement(sender: Option<ActorId>, id: MessageId, stages: seq<ActorId>, msg: Message, corr: Correctors): (r: Element)
    ensures r.sender == sender && r.stages == stages
    ensures r.mid == CategoryCorrection(msg, id, corr)
    ensures r.msg.vals.Some?
    ensures msg.vals.Some? ==> r.msg == msg
    ensures msg.vals.None? ==> r.msg == EmptyMessage
  {
    Element(sender, CategoryCorrection(msg, id, corr), stages, if msg.vals.None? then EmptyMessage else msg)
  }

  /** `copy_content_to_message`: the element's message, which the element
      keeps. */
  function CopyContent(e: Element): (r: Message)
    ensures r == e.msg
    ensures e.msg.vals.Some? ==> r.vals.Some?
  {
    e.msg
  }

  /** A message whose data pointer has been moved out. */
  const MovedFrom := Message(EmptyTuple, None)

  /** The content handed out by a move and the element left behind. */
  datatype Moved = Moved(msg: Message, rest: Element)

  /** `move_content_to_message`: hands out the same message a copy would,
      and leaves the element's header alone but its content moved from. */
  function MoveContent(e: Element): (r: Moved)
    ensures r.msg == CopyContent(e)
    ensures r.rest.sender == e.sender && r.rest.mid == e.mid && r.rest.stages == e.stages
    ensures r.rest.msg.vals.None?
  {
    Moved(e.msg, e.(msg := MovedFrom))
  }

  /** What either accessor returns for a freshly made element: the message
      it was made from, or an empty one in place of a message without
      content. A second move or copy after a move finds nothing. */
  lemma ContentOfMadeElement(sender: Option<ActorId>, id: MessageId, stages: seq<ActorId>, msg: Message, corr: Correctors)
    ensures var e := MakeMailboxElement(sender, id, stages, msg, corr);
      && CopyContent(e) == (if msg.vals.Some? then msg else EmptyMessage)
      && MoveContent(e).msg == CopyContent(e)
      && CopyContent(MoveContent(e).rest).vals.None?
  {
  }

  /** The content of a constructed element is always readable, and an
      ordinary message keeps its id and its content. */
  lemma ConstructedContentIsValid(sender: Option<ActorId>, id: MessageId, stages: seq<ActorId>, msg: Message, corr: Correctors)
    ensures CopyContent(MakeMailboxElement(sender, id, stages, msg, corr)).vals.Some?
    ensures msg.token.OtherType? && msg.vals.Some? ==>
      MakeMailboxElement(sender, id, stages, msg, corr) == Element(sender, id, stages, msg)
  {
  }
}
