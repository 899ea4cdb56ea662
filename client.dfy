/** One browser page of the chat: the state that the page's join, send and
    receive handlers read and write. */
module Client {
  import opened Wrappers
  import opened Messages
  import opened Presenter
  import opened Rendering

  /** The error text shown under the name field when joining with no name. */
  const BlankNameError: string := "Name cannot be blank!"

  /** The join guard: Python's `not value`, true of a missing and of an empty name.
      A name made only of spaces passes. */
  predicate NameMissing(v: Option<string>): (missing: bool)
    ensures missing ==> v == None || v == Some("")
    ensures !missing ==> v.Some? && |v.value| > 0
  {
    v.None? || v.value == ""
  }

  /** A message this page can have published: an announcement of a non-empty name,
      or a chat message. */
  ghost predicate Publishable(m: Message)
  {
    (m.userName.Some? && m.userName.value != "" && m == LoginMessage(m.userName.value))
    || m.messageType == ChatKind
  }

  class ChatPage {
    /** The runtime's title-casing and string hash, fixed for the process. */
    const rt: Runtime
    /** The session's "user_name" entry; None until a join succeeds. */
    var sessionName: Option<string>
    /** Whether the name dialog is open. */
    var dialogOpen: bool
    /** The value of the name field, and the error text shown under it. */
    var nameInput: Option<string>
    var nameError: Option<string>
    /** The value of the message field. */
    var messageInput: string
    /** The chat log, in the order entries were appended. */
    var chat: seq<Entry>
    /** Every message this page has handed to the broadcast channel, in order. */
    var outbox: seq<Message>

    /** The dialog is open until a join succeeds; a joined name is never empty;
        the page only publishes announcements of non-empty names and chat
        messages, and before joining only chat messages without an author. */
    ghost predicate Valid()
      reads this
    {
      (dialogOpen <==> sessionName.None?) &&
      (sessionName.Some? ==> sessionName.value != "") &&
      (forall i :: 0 <= i < |outbox| ==> Publishable(outbox[i])) &&
      (sessionName.None? ==>
         forall i :: 0 <= i < |outbox| ==> outbox[i].messageType == ChatKind && outbox[i].userName.None?)
    }

    /** A fresh page: dialog open, nobody joined, empty fields and an empty log. */
    constructor (rt: Runtime)
      ensures Valid() && this.rt == rt
      ensures sessionName == None && dialogOpen && nameInput == None && nameError == None
      ensures messageInput == "" && chat == [] && outbox == []
    {
      this.rt := rt;
      sessionName := None;
      dialogOpen := true;
      nameInput := None;
      nameError := None;
      messageInput := "";
      chat := [];
      outbox := [];
    }

    /** The user types `s` into the name field. */
    method EditName(s: string)
      requires Valid()
      modifies this`nameInput
      ensures Valid()
      ensures nameInput == Some(s)
    {
      nameInput := Some(s);
    }

    /** The user types `s` into the message field. */
    method EditMessage(s: string)
      requires Valid()
      modifies this`messageInput
      ensures Valid()
      ensures messageInput == s
    {
      messageInput := s;
    }

    /** The "Join chat" button. A missing or empty name only sets the error text.
        Any other name, spaces included, is stored in the session, closes the
        dialog and is announced by exactly one login message; the error text is
        left as it was. */
    method Join()
      requires Valid()
      modifies this`sessionName, this`dialogOpen, this`nameError, this`outbox
      ensures Valid()
      ensures NameMissing(nameInput) ==>
                nameError == Some(BlankNameError) && sessionName == old(sessionName) &&
                dialogOpen == old(dialogOpen) && outbox == old(outbox)
      ensures !NameMissing(nameInput) ==>
                sessionName == nameInput && !dialogOpen && nameError == old(nameError) &&
                outbox == old(outbox) + [LoginMessage(nameInput.value)]
    {
      if NameMissing(nameInput) {
        nameError := Some(BlankNameError);
      } else {
        sessionName := nameInput;
        dialogOpen := false;
        outbox := outbox + [LoginMessage(nameInput.value)];
      }
    }

    /** The send button and Enter in the message field. There is no guard: one
        chat message carrying the session's name (None before joining) and the
        field's text (possibly empty) is published, and the field is cleared. */
    method SendMessage()
      requires Valid()
      modifies this`messageInput, this`outbox
      ensures Valid()
      ensures outbox == old(outbox) + [Message(sessionName, old(messageInput), ChatKind)]
      ensures messageInput == ""
    {
      outbox := outbox + [Message(sessionName, messageInput, ChatKind)];
      messageInput := "";
    }

    /** The subscriber callback: appends exactly one entry for a message it can
        render and nothing otherwise, reporting why it failed. */
    method OnMessage(m: Message) returns (err: Option<RenderError>)
      requires Valid()
      modifies this`chat
      ensures Valid()
      ensures err == None <==> Renderable(m)
      ensures err.Some? ==> Render(rt, m) == Failure(err.value)
      ensures chat == old(chat) + Rendered(rt, [m])
      ensures err == None ==> chat == old(chat) + [Render(rt, m).value]
      ensures err.Some? ==> chat == old(chat)
    {
      var r := Render(rt, m);
      assert [m][..0] == [];
      match r
      case Success(entry) =>
        chat := chat + [entry];
        err := None;
      case Failure(e) =>
        err := Some(e);
    }
  }

  /** Everything a page has published with an author renders at every receiver:
      only chat messages sent before joining, which carry no author, fail. */
  lemma JoinedMessagesRender(p: ChatPage)
    requires p.Valid()
    ensures forall i | 0 <= i < |p.outbox| && p.outbox[i].userName.Some? :: Render(p.rt, p.outbox[i]).Success?
  {
  }

  /** The channel delivering `ms` to page `p` one message at a time, in order:
      the page's log gains exactly the entries of the messages it can render, in
      delivery order, after everything it held before. */
  method DeliverInOrder(p: ChatPage, ms: seq<Message>)
    requires p.Valid()
    modifies p`chat
    ensures p.Valid()
    ensures p.chat == old(p.chat) + Rendered(p.rt, ms)
  {
    var i := 0;
    while i < |ms|
      invariant 0 <= i <= |ms|
      invariant p.Valid()
      invariant p.chat == old(p.chat) + Rendered(p.rt, ms[..i])
    {
      var _ := p.OnMessage(ms[i]);
      RenderedAppend(p.rt, ms[..i], [ms[i]]);
      assert ms[..i] + [ms[i]] == ms[..i + 1];
      i := i + 1;
    }
    assert ms[..i] == ms;
  }

  /** Joining with a name made only of spaces succeeds, and a message sent
      afterwards is stamped with that name and shown in the log of a receiver. */
  method WhitespaceJoinScenario(rt: Runtime)
  {
    var page := new ChatPage(rt);
    page.EditName("  ");
    page.Join();
    assert page.sessionName == Some("  ") && !page.dialogOpen;
    assert page.outbox == [LoginMessage("  ")];
    page.EditMessage("hi");
    page.SendMessage();
    assert page.messageInput == "";
    var sent := page.outbox[1];
    assert sent == Message(Some("  "), "hi", ChatKind);
    var receiver := new ChatPage(rt);
    var e1 := receiver.OnMessage(page.outbox[0]);
    var e2 := receiver.OnMessage(sent);
    assert e1 == None && e2 == None;
    assert receiver.chat == [LoginNotice(JoinText("  ")), Render(rt, sent).value];
    assert receiver.chat[1].AvatarRow? && receiver.chat[1].author == "  " && receiver.chat[1].text == "hi";
  }

  /** An empty name is refused and nothing is published; a message sent anyway
      has no author, and every receiver fails on it without touching its log. */
  method BlankJoinScenario(rt: Runtime)
  {
    var page := new ChatPage(rt);
    page.EditName("");
    page.Join();
    assert page.nameError == Some(BlankNameError);
    assert page.sessionName == None && page.dialogOpen && page.outbox == [];
    page.SendMessage();
    assert page.outbox == [Message(None, "", ChatKind)];
    var receiver := new ChatPage(rt);
    var e := receiver.OnMessage(page.outbox[0]);
    assert e == Some(MissingAuthor) && receiver.chat == [];
  }
}
