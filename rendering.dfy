/** What a page's message handler turns a delivered message into: one entry of
    the chat log, or a failure that leaves the log as it was. */
module Rendering {
  import opened Wrappers
  import opened Messages
  import opened Presenter

  /** One entry of the chat log: the avatar row of a chat message (initials,
      colour, author, text) or the plain notice of a login message. */
  datatype Entry =
    | AvatarRow(initials: string, color: Color, author: string, text: string)
    | LoginNotice(text: string)

  /** Why the handler raises before appending: a kind it does not recognise leaves
      the entry unbound, and a chat message without an author cannot have its
      initials taken. */
  datatype RenderError = UnknownKind | MissingAuthor

  /** The messages the handler can render. */
  predicate Renderable(m: Message)
  {
    m.messageType == LoginKind || (m.messageType == ChatKind && m.userName.Some?)
  }

  /** The entry the handler builds for `m`, switching on the kind tag. */
  function Render(rt: Runtime, m: Message): (r: Result<Entry, RenderError>)
    ensures r.Success? <==> Renderable(m)
    ensures r.Failure? ==> (r.error == UnknownKind <==> m.messageType != ChatKind && m.messageType != LoginKind)
    ensures r.Success? ==> r.value.text == m.text
    ensures r.Success? ==> (r.value.AvatarRow? <==> m.messageType == ChatKind)
    ensures r.Success? && r.value.AvatarRow? ==>
              m.userName == Some(r.value.author) &&
              r.value.initials == GetInitials(rt, r.value.author) &&
              r.value.color == AvatarColor(rt, r.value.author)
  {
    if m.messageType == ChatKind then
      match m.userName
      case None => Failure(MissingAuthor)
      case Some(a) => Success(AvatarRow(GetInitials(rt, a), AvatarColor(rt, a), a, m.text))
    else if m.messageType == LoginKind then
      Success(LoginNotice(m.text))
    else
      Failure(UnknownKind)
  }

  /** What the chat log gains when `ms` is delivered to the handler one message at
      a time, in order: the entry of each message that renders, appended in turn. */
  function Rendered(rt: Runtime, ms: seq<Message>): (log: seq<Entry>)
    ensures |log| <= |ms|
  {
    if ms == [] then []
    else
      var r := Render(rt, ms[|ms| - 1]);
      Rendered(rt, ms[..|ms| - 1]) + (if r.Success? then [r.value] else [])
  }

  /** Delivering `a` and then `b` grows the log as delivering `a + b` does: the log
      is built in delivery order, and earlier entries are never touched. */
  lemma {:induction false} RenderedAppend(rt: Runtime, a: seq<Message>, b: seq<Message>)
    ensures Rendered(rt, a + b) == Rendered(rt, a) + Rendered(rt, b)
  {
    if b == [] {
      assert a + b == a;
    } else {
      var b' := b[..|b| - 1];
      assert (a + b)[..|a + b| - 1] == a + b';
      assert (a + b)[|a + b| - 1] == b[|b| - 1];
      RenderedAppend(rt, a, b');
    }
  }

  /** No entry is lost exactly when every delivered message renders; then the log
      holds one entry per message, in delivery order, with no drop and no
      duplication. */
  lemma {:induction false} RenderedInOrder(rt: Runtime, ms: seq<Message>)
    ensures |Rendered(rt, ms)| == |ms| <==> forall i :: 0 <= i < |ms| ==> Renderable(ms[i])
    ensures (forall i :: 0 <= i < |ms| ==> Renderable(ms[i])) ==>
              forall i :: 0 <= i < |ms| ==> Rendered(rt, ms)[i] == Render(rt, ms[i]).value
  {
    if ms != [] {
      var init := ms[..|ms| - 1];
      RenderedInOrder(rt, init);
      assert forall i :: 0 <= i < |init| ==> init[i] == ms[i];
      if !Renderable(ms[|ms| - 1]) {
        assert |Rendered(rt, ms)| == |Rendered(rt, init)| < |ms|;
      }
    }
  }

  /** The login announcement always renders, as a notice showing the
      "<name> has joined the chat." text. */
  lemma AnnouncementRenders(rt: Runtime, name: string)
    ensures Render(rt, LoginMessage(name)) == Success(LoginNotice(JoinText(name)))
  {
  }
}
