/** The chat session store: a map from session id to a session record (its
    messages, its title and its creation time), the order in which the ids
    were first inserted (the enumeration order of the host language's
    objects), and the id of the current session, if any. Clock readings are
    parameters, in milliseconds. */
module Store {
  import opened Wrappers
  import opened Text

  datatype Sender = User | Assistant

  datatype Message = Message(sender: Sender, content: string, time: nat)

  datatype Session = Session(messages: seq<Message>, title: string, timestamp: nat)

  datatype Store = Store(sessions: map<string, Session>, order: seq<string>, current: Option<string>)

  /** The title a session starts with. */
  const NewChatTitle := "New chat"

  /** The longest first message kept whole as a title. */
  const TitleLimit := 30

  /** The order lists every stored id exactly once, and the current id, if
      any, names a stored session. */
  predicate Valid(st: Store) {
    (forall i, j :: 0 <= i < j < |st.order| ==> st.order[i] != st.order[j])
    && (forall id :: id in st.sessions ==> id in st.order)
    && (forall i :: 0 <= i < |st.order| ==> st.order[i] in st.sessions)
    && (st.current.Some? ==> st.current.value in st.sessions)
  }

  /** The store before any message: the persisted sessions in their saved
      order, and no current session. */
  function Load(sessions: map<string, Session>, order: seq<string>): (st: Store)
    requires forall i, j :: 0 <= i < j < |order| ==> order[i] != order[j]
    requires forall id :: id in sessions ==> id in order
    requires forall i :: 0 <= i < |order| ==> order[i] in sessions
    ensures Valid(st) && st.current.None?
  {
    Store(sessions, order, None)
  }

  // ---------------------------------------------------------------------
  // Identifiers and titles

  /** `chat-` followed by the clock reading in decimal. */
  function SessionId(ms: nat): (id: string)
    ensures StartsWith(id, "chat-") && |id| > 5
    ensures forall k :: 5 <= k < |id| ==> '0' <= id[k] <= '9'
    ensures ParseDecimal(id[5..]) == ms
  {
    var d := Decimal(ms);
    DecimalRoundTrip(ms);
    assert ("chat-" + d)[5..] == d;
    "chat-" + d
  }

  /** Two sessions get the same id exactly when they are created in the same
      millisecond; the second then overwrites the first. */
  lemma SessionIdCollides(a: nat, b: nat)
    ensures SessionId(a) == SessionId(b) <==> a == b
  {
    if SessionId(a) == SessionId(b) {
      assert Decimal(a) == SessionId(a)[5..] == SessionId(b)[5..] == Decimal(b);
      DecimalInjective(a, b);
    }
  }

  /** The title made from a first message: the message itself when it has
      at most thirty characters, else its first thirty and an ellipsis. */
  function MakeTitle(first: string): (t: string)
    ensures |t| <= TitleLimit + 3
    ensures |first| <= TitleLimit ==> t == first
    ensures |first| > TitleLimit ==> |t| == TitleLimit + 3 && t[..TitleLimit] == first[..TitleLimit] && t[TitleLimit..] == "..."
  {
    if |first| > TitleLimit then first[..TitleLimit] + "..." else first
  }

  // ---------------------------------------------------------------------
  // Operations

  /** `createNewChat`: a fresh empty session under the id made from `ms`,
      created at `stamp`, becomes current. An id already present keeps its
      place in the order and its session is replaced. */
  function CreateNewChat(st: Store, ms: nat, stamp: nat): (r: Store)
    ensures r.current == Some(SessionId(ms))
    ensures SessionId(ms) in r.sessions && r.sessions[SessionId(ms)] == Session([], NewChatTitle, stamp)
    ensures r.sessions.Keys == st.sessions.Keys + {SessionId(ms)}
    ensures forall id :: id in st.sessions && id != SessionId(ms) ==> r.sessions[id] == st.sessions[id]
    ensures SessionId(ms) in st.sessions ==> r.order == st.order
    ensures SessionId(ms) !in st.sessions ==> r.order == st.order + [SessionId(ms)]
  {
    var id := SessionId(ms);
    Store(st.sessions[id := Session([], NewChatTitle, stamp)],
          if id in st.sessions then st.order else st.order + [id],
          Some(id))
  }

  lemma CreateNewChatValid(st: Store, ms: nat, stamp: nat)
    requires Valid(st)
    ensures Valid(CreateNewChat(st, ms, stamp))
  {
    var id := SessionId(ms);
    var r := CreateNewChat(st, ms, stamp);
    if id !in st.sessions {
      assert id !in st.order;
      forall i, j | 0 <= i < j < |r.order|
        ensures r.order[i] != r.order[j]
      {
        if j == |st.order| {
          assert st.order[i] in st.order;
        }
      }
    }
  }

  /** `updateChatTitle`: the session's title becomes the title made from
      `first`; nothing else changes. */
  function UpdateChatTitle(st: Store, id: string, first: string): (r: Store)
    requires id in st.sessions
    ensures r.sessions.Keys == st.sessions.Keys && r.order == st.order && r.current == st.current
    ensures r.sessions[id].title == MakeTitle(first)
    ensures r.sessions[id].messages == st.sessions[id].messages
    ensures r.sessions[id].timestamp == st.sessions[id].timestamp
    ensures forall other :: other in st.sessions && other != id ==> r.sessions[other] == st.sessions[other]
  {
    st.(sessions := st.sessions[id := st.sessions[id].(title := MakeTitle(first))])
  }

  /** How many of the messages the user sent. */
  function UserCount(ms: seq<Message>): (n: nat)
    ensures n <= |ms|
  {
    if ms == [] then 0
    else UserCount(ms[..|ms| - 1]) + (if ms[|ms| - 1].sender == User then 1 else 0)
  }

  /** The session a message goes to: the current one, or the one created
      for it. */
  function Target(st: Store, ms: nat): string {
    if st.current.Some? then st.current.value else SessionId(ms)
  }

  /** The messages the target session holds before the message is added. */
  function Earlier(st: Store): seq<Message> {
    if st.current.Some? && st.current.value in st.sessions then st.sessions[st.current.value].messages else []
  }

  /** The target session's title before the message is added. */
  function TitleBefore(st: Store): string {
    if st.current.Some? && st.current.value in st.sessions then st.sessions[st.current.value].title else NewChatTitle
  }

  /** `addMessage`: with no current session one is created first (id from
      `ms`, creation time `stamp`); the message, sent at `time`, is appended
      to the current session; when it is that session's first user message
      the session is titled after it. Every other session is left alone. */
  function AddMessage(st: Store, content: string, sender: Sender, ms: nat, stamp: nat, time: nat): (r: Store)
    requires st.current.Some? ==> st.current.value in st.sessions
    ensures r.current == Some(Target(st, ms)) && Target(st, ms) in r.sessions
    ensures r.sessions[Target(st, ms)].messages == Earlier(st) + [Message(sender, content, time)]
    ensures r.sessions.Keys == st.sessions.Keys + {Target(st, ms)}
    ensures forall other :: other in st.sessions && other != Target(st, ms) ==> r.sessions[other] == st.sessions[other]
    ensures st.current.Some? ==> r.order == st.order && r.sessions[Target(st, ms)].timestamp == st.sessions[Target(st, ms)].timestamp
    ensures st.current.None? ==> r.sessions[Target(st, ms)].timestamp == stamp
    ensures st.current.None? && Target(st, ms) in st.sessions ==> r.order == st.order
    ensures st.current.None? && Target(st, ms) !in st.sessions ==> r.order == st.order + [Target(st, ms)]
    ensures sender == User && UserCount(Earlier(st)) == 0 ==> r.sessions[Target(st, ms)].title == MakeTitle(content)
    ensures sender != User || UserCount(Earlier(st)) > 0 ==> r.sessions[Target(st, ms)].title == TitleBefore(st)
  {
    var id := Target(st, ms);
    var m := Message(sender, content, time);
    var added := Append(Base(st, ms, stamp), id, m);
    assert sender == User ==> (UserCount(Earlier(st) + [m]) == 1 <==> UserCount(Earlier(st)) == 0) by {
      UserCountAppend(Earlier(st), m);
    }
    if sender == User && UserCount(added.sessions[id].messages) == 1 then UpdateChatTitle(added, id, content) else added
  }

  /** The store a message is added to: `st` itself when a session is
      current, else `st` with a new session made current. */
  function Base(st: Store, ms: nat, stamp: nat): (r: Store)
    requires st.current.Some? ==> st.current.value in st.sessions
    ensures r.current == Some(Target(st, ms)) && Target(st, ms) in r.sessions
    ensures r.sessions[Target(st, ms)].messages == Earlier(st)
    ensures r.sessions[Target(st, ms)].title == TitleBefore(st)
    ensures r.sessions.Keys == st.sessions.Keys + {Target(st, ms)}
    ensures forall other :: other in st.sessions && other != Target(st, ms) ==> r.sessions[other] == st.sessions[other]
    ensures st.current.Some? ==> r == st
    ensures st.current.None? ==> r.sessions[Target(st, ms)].timestamp == stamp
    ensures st.current.None? && Target(st, ms) in st.sessions ==> r.order == st.order
    ensures st.current.None? && Target(st, ms) !in st.sessions ==> r.order == st.order + [Target(st, ms)]
  {
    if st.current.None? then CreateNewChat(st, ms, stamp) else st
  }

  /** Appends `m` to the messages of session `id`; nothing else changes. */
  function Append(st: Store, id: string, m: Message): (r: Store)
    requires id in st.sessions
    ensures r.sessions.Keys == st.sessions.Keys && r.order == st.order && r.current == st.current
    ensures r.sessions[id].messages == st.sessions[id].messages + [m]
    ensures r.sessions[id].title == st.sessions[id].title && r.sessions[id].timestamp == st.sessions[id].timestamp
    ensures forall other :: other in st.sessions && other != id ==> r.sessions[other] == st.sessions[other]
  {
    var session := st.sessions[id];
    st.(sessions := st.sessions[id := session.(messages := session.messages + [m])])
  }

  /** A message adds one to the user count exactly when the user sent it. */
  lemma UserCountAppend(ms: seq<Message>, m: Message)
    ensures UserCount(ms + [m]) == UserCount(ms) + (if m.sender == User then 1 else 0)
  {
    assert (ms + [m])[..|ms|] == ms;
  }

  lemma AddMessageValid(st: Store, content: string, sender: Sender, ms: nat, stamp: nat, time: nat)
    requires Valid(st)
    ensures Valid(AddMessage(st, content, sender, ms, stamp, time))
  {
    if st.current.None? {
      CreateNewChatValid(st, ms, stamp);
    }
  }

  /** Once a session holds a user message, no later message retitles it. */
  lemma {:induction false} TitleSettles(st: Store, sends: seq<(string, Sender, nat)>, ms: nat, stamp: nat)
    requires st.current.Some? && st.current.value in st.sessions
    requires UserCount(st.sessions[st.current.value].messages) > 0
    ensures var r := AddAll(st, sends, ms, stamp);
      r.current == st.current && st.current.value in r.sessions
      && r.sessions[st.current.value].title == st.sessions[st.current.value].title
      && UserCount(r.sessions[st.current.value].messages) > 0
    decreases |sends|
  {
    if sends != [] {
      var (content, sender, time) := sends[0];
      var next := AddMessage(st, content, sender, ms, stamp, time);
      var grown := st.sessions[st.current.value].messages + [Message(sender, content, time)];
      assert grown[..|grown| - 1] == st.sessions[st.current.value].messages;
      TitleSettles(next, sends[1..], ms, stamp);
    }
  }

  /** A sequence of messages added one after another. */
  function AddAll(st: Store, sends: seq<(string, Sender, nat)>, ms: nat, stamp: nat): Store
    requires st.current.Some? ==> st.current.value in st.sessions
    decreases |sends|
  {
    if sends == [] then st
    else
      var (content, sender, time) := sends[0];
      AddAll(AddMessage(st, content, sender, ms, stamp, time), sends[1..], ms, stamp)
  }

  // ---------------------------------------------------------------------
  // The history list

  /** The creation time of a stored session. */
  function Stamp(sessions: map<string, Session>, id: string): nat {
    if id in sessions then sessions[id].timestamp else 0
  }

  /** Newest first. */
  predicate NewestFirst(sessions: map<string, Session>, ids: seq<string>) {
    forall i, j :: 0 <= i < j < |ids| ==> Stamp(sessions, ids[i]) >= Stamp(sessions, ids[j])
  }

  /** Puts `id` into a newest-first list ahead of every entry that is not
      newer. */
  function Insert(sessions: map<string, Session>, id: string, ids: seq<string>): (r: seq<string>)
    ensures multiset(r) == multiset(ids) + multiset{id}
    ensures |r| == |ids| + 1
  {
    if ids == [] || Stamp(sessions, id) >= Stamp(sessions, ids[0]) then [id] + ids
    else
      assert ids == [ids[0]] + ids[1..];
      [ids[0]] + Insert(sessions, id, ids[1..])
  }

  /** The sidebar order: the ids in their enumeration order, sorted newest
      first by a stable sort. */
  function History(sessions: map<string, Session>, ids: seq<string>): (r: seq<string>)
    ensures multiset(r) == multiset(ids)
    decreases |ids|
  {
    if ids == [] then []
    else
      assert ids == [ids[0]] + ids[1..];
      Insert(sessions, ids[0], History(sessions, ids[1..]))
  }

  lemma {:induction false} InsertNewestFirst(sessions: map<string, Session>, id: string, ids: seq<string>)
    requires NewestFirst(sessions, ids)
    ensures NewestFirst(sessions, Insert(sessions, id, ids))
    decreases |ids|
  {
    if ids == [] || Stamp(sessions, id) >= Stamp(sessions, ids[0]) {
      ConsNewestFirst(sessions, id, ids);
    } else {
      assert NewestFirst(sessions, ids[1..]);
      InsertNewestFirst(sessions, id, ids[1..]);
      var tail := Insert(sessions, id, ids[1..]);
      assert tail[0] in multiset(tail);
      assert tail[0] == id || tail[0] in multiset(ids[1..]);
      if tail[0] != id {
        var k :| 0 <= k < |ids[1..]| && ids[1..][k] == tail[0];
        assert Stamp(sessions, ids[0]) >= Stamp(sessions, ids[1 + k]);
      }
      ConsNewestFirst(sessions, ids[0], tail);
    }
  }

  /** A head no older than the first entry of a newest-first list keeps it
      newest first. */
  lemma ConsNewestFirst(sessions: map<string, Session>, x: string, rest: seq<string>)
    requires NewestFirst(sessions, rest)
    requires rest == [] || Stamp(sessions, x) >= Stamp(sessions, rest[0])
    ensures NewestFirst(sessions, [x] + rest)
  {
    var s := [x] + rest;
    forall i, j | 0 <= i < j < |s|
      ensures Stamp(sessions, s[i]) >= Stamp(sessions, s[j])
    {
      if i == 0 {
        assert s[j] == rest[j - 1];
        assert Stamp(sessions, rest[0]) >= Stamp(sessions, rest[j - 1]) || j == 1;
      } else {
        assert s[i] == rest[i - 1] && s[j] == rest[j - 1];
      }
    }
  }

  /** The history is sorted newest first. */
  lemma {:induction false} HistoryNewestFirst(sessions: map<string, Session>, ids: seq<string>)
    ensures NewestFirst(sessions, History(sessions, ids))
    decreases |ids|
  {
    if ids != [] {
      HistoryNewestFirst(sessions, ids[1..]);
      InsertNewestFirst(sessions, ids[0], History(sessions, ids[1..]));
    }
  }

  /** The entries of `ids` created at time `t`, in order. */
  function At(sessions: map<string, Session>, ids: seq<string>, t: nat): (r: seq<string>)
    ensures |r| <= |ids|
  {
    if ids == [] then []
    else (if Stamp(sessions, ids[0]) == t then [ids[0]] else []) + At(sessions, ids[1..], t)
  }

  lemma {:induction false} InsertAt(sessions: map<string, Session>, id: string, ids: seq<string>, t: nat)
    ensures At(sessions, Insert(sessions, id, ids), t)
      == (if Stamp(sessions, id) == t then [id] else []) + At(sessions, ids, t)
    decreases |ids|
  {
    if ids == [] {
    } else if Stamp(sessions, id) >= Stamp(sessions, ids[0]) {
      AtCons(sessions, id, ids, t);
    } else {
      var r := Insert(sessions, id, ids[1..]);
      InsertAt(sessions, id, ids[1..], t);
      AtCons(sessions, ids[0], r, t);
      AtCons(sessions, ids[0], ids[1..], t);
      assert [ids[0]] + ids[1..] == ids;
    }
  }

  /** The entries at `t` of a sequence with a known head. */
  lemma AtCons(sessions: map<string, Session>, x: string, rest: seq<string>, t: nat)
    ensures At(sessions, [x] + rest, t) == (if Stamp(sessions, x) == t then [x] else []) + At(sessions, rest, t)
  {
    assert ([x] + rest)[1..] == rest;
  }

  /** The sort is stable: sessions created at the same time keep their
      enumeration order. */
  lemma {:induction false} HistoryStable(sessions: map<string, Session>, ids: seq<string>, t: nat)
    ensures At(sessions, History(sessions, ids), t) == At(sessions, ids, t)
    decreases |ids|
  {
    if ids != [] {
      HistoryStable(sessions, ids[1..], t);
      InsertAt(sessions, ids[0], History(sessions, ids[1..]), t);
    }
  }

  /** What the sidebar shows for a session: its title, or "New chat" when
      the title is empty. */
  function Shown(s: Session): (t: string)
    ensures t != []
    ensures s.title != [] ==> t == s.title
  {
    if s.title == [] then NewChatTitle else s.title
  }

  /** `loadChatHistory`: the sidebar labels, newest session first. */
  function HistoryLabels(st: Store): (labels: seq<(string, string)>)
    requires Valid(st)
    ensures |labels| == |st.order|
    ensures forall i :: 0 <= i < |labels| ==> labels[i].0 in st.sessions && labels[i].1 == Shown(st.sessions[labels[i].0])
    ensures forall i :: 0 <= i < |labels| ==> labels[i].0 == History(st.sessions, st.order)[i]
    ensures forall i, j :: 0 <= i < j < |labels| ==>
      Stamp(st.sessions, labels[i].0) >= Stamp(st.sessions, labels[j].0)
  {
    var ids := History(st.sessions, st.order);
    HistoryKnown(st);
    HistoryNewestFirst(st.sessions, st.order);
    Labels(st.sessions, ids)
  }

  /** Every id the history lists is stored, and it lists as many as the
      order holds. */
  lemma HistoryKnown(st: Store)
    requires Valid(st)
    ensures |History(st.sessions, st.order)| == |st.order|
    ensures forall i :: 0 <= i < |History(st.sessions, st.order)| ==> History(st.sessions, st.order)[i] in st.sessions
  {
    var ids := History(st.sessions, st.order);
    forall i | 0 <= i < |ids|
      ensures ids[i] in st.sessions
    {
      assert ids[i] in multiset(ids);
    }
    assert |ids| == |multiset(ids)| == |multiset(st.order)| == |st.order|;
  }

  /** One label per id, in the same order. */
  function Labels(sessions: map<string, Session>, ids: seq<string>): (labels: seq<(string, string)>)
    requires forall i :: 0 <= i < |ids| ==> ids[i] in sessions
    ensures |labels| == |ids|
    ensures forall i :: 0 <= i < |ids| ==> labels[i] == (ids[i], Shown(sessions[ids[i]]))
  {
    seq(|ids|, i requires 0 <= i < |ids| => (ids[i], Shown(sessions[ids[i]])))
  }
}
