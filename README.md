# Zapchat chat page — a Dafny model

Zapchat is a single-room group chat built on Flet. Each browser page asks for a
display name in a modal dialog. The "Join chat" button stores the name in the
page's session and broadcasts a login announcement. The send button broadcasts a
chat message stamped with the session's name. Every page subscribes one handler
to the broadcast channel, and that handler appends one entry per delivered
message it can render to the page's chat log. An entry is an avatar row (initials, colour,
author, text) or a plain login notice.

This project models that logic:

- `Messages`: the message record (author, text, kind tag) and the login
  announcement.
- `Presenter`: the avatar helpers. Initials are the capitalised first character
  of the name. The colour is the palette slot `hash(name) % 13`, computed with
  Python's floor modulo.
- `Rendering`: the handler's switch on the kind tag. It covers the two ways the
  handler fails before appending. It also gives the growth of the log under a
  sequence of deliveries.
- `Client`: the page as a class. Its fields are the session name, the dialog
  flag, the name field and its error text, the message field, the chat log and
  an outbox. The methods are the join, send and receive handlers.

The broadcast call is modelled as appending to the page's `outbox`. Delivery
to a receiving page is a call of that page's `OnMessage`.

The model follows the code as written:

- A name made only of spaces is accepted. Only a missing or empty name is
  refused.
- Sending needs no prior join and accepts empty text. Before a join, the
  message's author is `None`.
- The initials of an empty name are `""`. This is not an error.
- There is no subscribe/unsubscribe bookkeeping, no leave operation and no
  duplicate-subscriber check.

Two behaviours of the code are made explicit:

- A chat message without an author makes every receiver's handler fail.
  Taking the initials of `None` raises before anything is appended
  (`MissingAuthor`).
- A message of any other kind leaves the entry unbound, which also fails
  (`UnknownKind`).

A successful join does not clear an earlier error text.

## Model

| member | source | states |
|---|---|---|
| `Messages.MessageStoresFields` | Zapchat_application.py:4-8 | a message holds exactly the author, text and kind it was built from; two messages are equal only when all three agree |
| `Messages.JoinText` | Zapchat_application.py:102 | the announcement text is the name followed by exactly " has joined the chat." |
| `Messages.LoginMessage` | Zapchat_application.py:101-103 | the announcement is authored by the joining name, has the login kind, and its text is the name followed by " has joined the chat." |
| `Messages.JoinTextInjective` | Zapchat_application.py:102 | two names give the same announcement text if and only if they are the same name |
| `Presenter.Prefix` | Zapchat_application.py:35 | the slice `s[:n]` never fails: it is a prefix of `s` of length min(n, len(s)) |
| `Presenter.GetInitials` | Zapchat_application.py:34-35 | at most one character; empty if and only if the name is empty; otherwise the title-cased first character of the name |
| `Presenter.PyFloorDiv` | Zapchat_application.py:55 | Python's `//` rounds towards minus infinity: for a positive divisor `b*q <= a < b*q + b`, and the mirror bounds for a negative one |
| `Presenter.PyMod` | Zapchat_application.py:55 | Python's `%` has the divisor's sign: in `[0, b)` for `b > 0`, in `(b, 0]` for `b < 0`, and `a == b*(a//b) + a%b` |
| `Presenter.AvatarColorIndex` | Zapchat_application.py:39-55 | the palette index is always in `[0, 13)`, so the lookup never fails, and it is congruent to the name's hash modulo 13 |
| `Presenter.AvatarColor` | Zapchat_application.py:39-55 | the colour looked up is the palette entry whose slot is the name's index `hash(name) % 13` |
| `Presenter.PaletteSlot` | Zapchat_application.py:40-54 | every colour sits at a slot of the 13-entry palette |
| `Presenter.PaletteDistinct` | Zapchat_application.py:40-54 | no colour appears twice in the palette |
| `Presenter.SameColorIff` | Zapchat_application.py:39-55 | for a fixed hash, the same name always gets the same colour, and two names share a colour if and only if their hashes are congruent modulo 13 |
| `Presenter.EveryColorReachable` | Zapchat_application.py:55 | a name whose hash is a colour's slot gets that colour |
| `Rendering.Render` | Zapchat_application.py:82-86 | renders if and only if the kind is the login tag, or the chat tag with an author; an unknown kind is `UnknownKind`, an authorless chat message is `MissingAuthor`; the entry shows the message text verbatim; a chat message becomes an avatar row with its author, initials and colour, a login message a notice |
| `Rendering.Rendered` | Zapchat_application.py:82-87 | delivering a sequence of messages adds at most one entry per message |
| `Rendering.RenderedAppend` | Zapchat_application.py:82-87 | delivering `a` then `b` grows the log as delivering `a + b` does: the log is in delivery order and earlier entries are not touched |
| `Rendering.RenderedInOrder` | Zapchat_application.py:82-87 | the log gains one entry per message if and only if every message renders, and then entry `i` is the rendering of message `i` (no drop, no duplicate, no reordering) |
| `Rendering.AnnouncementRenders` | Zapchat_application.py:85-86 | a login announcement always renders, as the notice "<name> has joined the chat." |
| `Client.NameMissing` | Zapchat_application.py:95 | the join guard `not user_name.value` holds only of a missing or empty name; any other value, spaces included, is a non-empty string |
| `Client.ChatPage.constructor` | Zapchat_application.py:116-124 | a new page has the dialog open, no session name, empty fields, an empty log and nothing published |
| `Client.ChatPage.EditName` | Zapchat_application.py:116 | the name field holds what the user typed |
| `Client.ChatPage.EditMessage` | Zapchat_application.py:70-79 | the message field holds what the user typed |
| `Client.ChatPage.Join` | Zapchat_application.py:94-104 | a missing or empty name sets the error text and changes nothing else; any other name, spaces included, is stored in the session, closes the dialog and publishes exactly one login message for it; the page invariant is kept |
| `Client.ChatPage.SendMessage` | Zapchat_application.py:107-113 | publishes exactly one chat message with the session's name (None before joining) and the field's text, then clears the field; nothing else changes |
| `Client.ChatPage.OnMessage` | Zapchat_application.py:82-88 | appends exactly one entry, at the end, for a renderable message, and reports the error and leaves the log unchanged otherwise |
| `Client.JoinedMessagesRender` | Zapchat_application.py:82-103 | on a page whose invariant holds, every published message that carries an author renders at every receiver |
| `Client.DeliverInOrder` | Zapchat_application.py:82-91 | delivering a sequence of messages to the subscribed handler one at a time leaves the log as before followed by the rendered entries, in delivery order |

## Left out

- Widget construction, styling and layout are not modelled. This covers the avatar row's widget tree, the dialog's other fields, `page.add`, `page.update()`, `update()`, `focus()` and `ft.app(main)`. They have no stated behaviour beyond display.
- The broadcast channel's internals (`page.pubsub.subscribe` and `send_all`) are not modelled. Fan-out across sessions is library code and concurrent. A publish is an append to the sending page's outbox. A delivery is a call of the receiving page's `OnMessage`.
- Python's string `hash` is randomised per process and implemented by the runtime. It is a parameter of the model (`Runtime.hash`). Only the modulo bound and the dependence on the hash alone are proved.
- `str.capitalize` is a parameter that title-cases one character (`Runtime.titleCase`). Unicode title-casing is not modelled.
- Presenter.GetInitials: its length bound rests on the one-character title-casing abstraction. In Python a few characters title-case to two (`'ß'` becomes `'Ss'`), and the model does not capture that.
- An unset message field (`None`) is not modelled. The message field's value is always a string, `""` when empty.
- The palette's colours are named values. Their Flet colour strings are not modelled.
