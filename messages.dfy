/** The record that clients hand to the page's publish/subscribe channel. */
module Messages {
  import opened Wrappers

  /** The two kind tags the handlers publish and recognise. */
  const ChatKind: string := "chat_message"
  const LoginKind: string := "login_message"

  /** What a login announcement appends to the joining name. */
  const JoinedSuffix: string := " has joined the chat."

  /** One published event: author, text and kind tag, stored as given.
      The author is optional because a chat message is stamped with whatever the
      session holds, and that is None before the user has joined. The kind is a
      free string, as in the Python code: only the two tags above are recognised. */
  datatype Message = Message(userName: Option<string>, text: string, messageType: string)

  /** Constructing a message stores exactly the three values it was given, and two
      messages are equal only when all three agree: nothing is derived or altered. */
  lemma MessageStoresFields(a: Option<string>, t: string, k: string, a': Option<string>, t': string, k': string)
    ensures Message(a, t, k).userName == a && Message(a, t, k).text == t && Message(a, t, k).messageType == k
    ensures Message(a, t, k) == Message(a', t', k') <==> a == a' && t == t' && k == k'
  {
  }

  /** The announcement text of a login message. */
  function JoinText(name: string): (t: string)
    ensures |t| == |name| + |JoinedSuffix|
    ensures t[..|name|] == name && t[|name|..] == JoinedSuffix
  {
    name + JoinedSuffix
  }

  /** The login message published when `name` joins. */
  function LoginMessage(name: string): (m: Message)
    ensures m.userName == Some(name) && m.messageType == LoginKind
    ensures |m.text| == |name| + |JoinedSuffix|
    ensures m.text[..|name|] == name && m.text[|name|..] == JoinedSuffix
  {
    Message(Some(name), JoinText(name), LoginKind)
  }

  /** The announcement text names its author unambiguously: two names give the same
      announcement exactly when they are the same name. */
  lemma {:induction false} JoinTextInjective(a: string, b: string)
    ensures JoinText(a) == JoinText(b) <==> a == b
  {
    if JoinText(a) == JoinText(b) {
      assert |a| == |b|;
      assert a == JoinText(a)[..|a|];
      assert b == JoinText(b)[..|b|];
    }
  }
}
