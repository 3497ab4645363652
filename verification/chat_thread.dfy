/**
 * The message list shared by the two chat screens (app/message.jsx and
 * message.jsx): the client-side message record, the mapping from the server's
 * messages, the ascending sort by `createdAt`, and the list operations the
 * screens apply (replace by id, remove by id, append).
 *
 * `createdAt` is an integer timestamp; parsing it with `new Date` is not
 * modelled. JavaScript's `Array.prototype.sort` is stable, and so is the
 * insertion sort below.
 */
module ChatThread {
  import Text

  /** A message as the server sends it. */
  datatype ServerMessage = ServerMessage(id: nat, content: string, sender: string, createdAt: int)

  /** A message as the screen keeps it: the id is the decimal string of the server id. */
  datatype Message = Message(id: string, text: string, sender: string, createdAt: int)

  /** The sender value of messages written on the driver's screen. */
  const DriverSender := "driver"

  /** `{ id: msg.id.toString(), text: msg.content, sender: msg.sender, createdAt: msg.createdAt }`. */
  function Format(m: ServerMessage): Message {
    Message(Text.NatToString(m.id), m.content, m.sender, m.createdAt)
  }

  /** `result.messages.map(...)`: one formatted entry per server message, in the same order. */
  function FormatAll(ms: seq<ServerMessage>): (r: seq<Message>)
    ensures |r| == |ms|
    ensures forall i :: 0 <= i < |ms| ==> r[i] == Format(ms[i])
  {
    if ms == [] then [] else [Format(ms[0])] + FormatAll(ms[1..])
  }

  /** Messages with distinct server ids get distinct screen ids. */
  lemma FormatKeepsIdsDistinct(ms: seq<ServerMessage>)
    requires forall i, j :: 0 <= i < j < |ms| ==> ms[i].id != ms[j].id
    ensures DistinctIds(FormatAll(ms))
  {
    forall i, j | 0 <= i < j < |ms|
      ensures Text.NatToString(ms[i].id) != Text.NatToString(ms[j].id)
    {
      Text.NatToStringInjective(ms[i].id, ms[j].id);
    }
  }

  /** Ascending by `createdAt`. */
  predicate SortedByTime(s: seq<Message>) {
    forall i, j :: 0 <= i < j < |s| ==> s[i].createdAt <= s[j].createdAt
  }

  /** No two messages share an id. */
  predicate DistinctIds(s: seq<Message>) {
    forall i, j :: 0 <= i < j < |s| ==> s[i].id != s[j].id
  }

  /** Every message of `s` is at or before time `t`. */
  predicate AllAtOrBefore(s: seq<Message>, t: int) {
    forall i :: 0 <= i < |s| ==> s[i].createdAt <= t
  }

  /** Inserts `m` after every element that is not later than it (which keeps the sort stable). */
  function InsertByTime(m: Message, s: seq<Message>): (r: seq<Message>)
    ensures |r| == |s| + 1
    ensures multiset(r) == multiset(s) + multiset{m}
  {
    if s == [] then [m]
    else if m.createdAt < s[0].createdAt then [m] + s
    else
      assert s == [s[0]] + s[1..];
      [s[0]] + InsertByTime(m, s[1..])
  }

  /** Inserting into a sorted list gives a sorted list. */
  lemma {:induction false} InsertKeepsSorted(m: Message, s: seq<Message>)
    requires SortedByTime(s)
    ensures SortedByTime(InsertByTime(m, s))
  {
    if s != [] && m.createdAt >= s[0].createdAt {
      var tail := s[1..];
      var rest := InsertByTime(m, tail);
      InsertKeepsSorted(m, tail);
      forall k | 0 <= k < |rest|
        ensures s[0].createdAt <= rest[k].createdAt
      {
        assert rest[k] in multiset(rest);
        if rest[k] != m {
          assert rest[k] in multiset(tail);
          var idx :| 0 <= idx < |tail| && tail[idx] == rest[k];
          assert s[idx + 1] == rest[k];
        }
      }
    }
  }

  /** The stable ascending sort by `createdAt`: `list.sort((a, b) => a.createdAt - b.createdAt)`. */
  function SortByTime(s: seq<Message>): (r: seq<Message>)
    ensures SortedByTime(r)
    ensures |r| == |s|
    ensures multiset(r) == multiset(s)
  {
    if s == [] then []
    else
      assert s == s[..|s| - 1] + [s[|s| - 1]];
      var sortedInit := SortByTime(s[..|s| - 1]);
      InsertKeepsSorted(s[|s| - 1], sortedInit);
      InsertByTime(s[|s| - 1], sortedInit)
  }

  /** Inserting an element no earlier than all others appends it. */
  lemma {:induction false} InsertLatestAppends(m: Message, s: seq<Message>)
    requires SortedByTime(s)
    requires AllAtOrBefore(s, m.createdAt)
    ensures InsertByTime(m, s) == s + [m]
  {
    if s != [] {
      InsertLatestAppends(m, s[1..]);
      assert s == [s[0]] + s[1..];
    }
  }

  /** Sorting an already sorted list leaves it as it is. */
  lemma {:induction false} SortSortedIsIdentity(s: seq<Message>)
    ensures SortedByTime(s) ==> SortByTime(s) == s
  {
    if s != [] && SortedByTime(s) {
      var init := s[..|s| - 1];
      var last := s[|s| - 1];
      SortedPrefix(s);
      SortSortedIsIdentity(init);
      SortAppendLatest(init, last);
      assert s == init + [last];
    }
  }

  /** When a sorted list is its own sort, adding a message no older than the rest sorts to itself too. */
  lemma SortAppendLatest(init: seq<Message>, last: Message)
    requires SortedByTime(init) && SortByTime(init) == init
    requires AllAtOrBefore(init, last.createdAt)
    ensures SortByTime(init + [last]) == init + [last]
  {
    var s := init + [last];
    assert s[..|s| - 1] == init && s[|s| - 1] == last;
    InsertLatestAppends(last, init);
  }

  /** Dropping the last message of a sorted list keeps it sorted, with every message at or before the dropped one. */
  lemma SortedPrefix(s: seq<Message>)
    requires s != [] && SortedByTime(s)
    ensures SortedByTime(s[..|s| - 1])
    ensures AllAtOrBefore(s[..|s| - 1], s[|s| - 1].createdAt)
  {
    var init := s[..|s| - 1];
    forall i, j | 0 <= i < j < |init|
      ensures init[i].createdAt <= init[j].createdAt
    {
      assert init[i] == s[i] && init[j] == s[j];
    }
    forall i | 0 <= i < |init|
      ensures init[i].createdAt <= s[|s| - 1].createdAt
    {
      assert init[i] == s[i];
    }
  }

  /** Sorting twice is the same as sorting once. */
  lemma SortIdempotent(s: seq<Message>)
    ensures SortByTime(SortByTime(s)) == SortByTime(s)
  {
    SortSortedIsIdentity(SortByTime(s));
  }

  /**
   * `fetchMessages` on success: one entry per server message, holding the
   * formatted messages, in ascending `createdAt` order.
   */
  function LoadThread(ms: seq<ServerMessage>): (r: seq<Message>)
    ensures |r| == |ms|
    ensures SortedByTime(r)
    ensures multiset(r) == multiset(FormatAll(ms))
  {
    SortByTime(FormatAll(ms))
  }

  /** The ids of a list, in order. */
  function Ids(s: seq<Message>): (r: seq<string>)
    ensures |r| == |s|
    ensures forall i :: 0 <= i < |s| ==> r[i] == s[i].id
  {
    if s == [] then [] else [s[0].id] + Ids(s[1..])
  }

  /** A message with only its `text` changed. */
  function WithText(m: Message, text: string): Message {
    m.(text := text)
  }

  /** The message list with `text` as the text of every message whose id is `id`, everything else untouched. */
  function SetTextWhere(s: seq<Message>, id: string, text: string): (r: seq<Message>)
    ensures |r| == |s|
    ensures forall i :: 0 <= i < |s| && s[i].id != id ==> r[i] == s[i]
    ensures forall i :: 0 <= i < |s| && s[i].id == id ==>
      r[i].text == text && r[i].id == s[i].id && r[i].sender == s[i].sender && r[i].createdAt == s[i].createdAt
  {
    if s == [] then []
    else [if s[0].id == id then WithText(s[0], text) else s[0]] + SetTextWhere(s[1..], id, text)
  }

  /**
   * The message list with every message whose id is `id` rewritten to carry
   * `text`, sender `driver` and timestamp `now`; everything else untouched.
   */
  function RestampWhere(s: seq<Message>, id: string, text: string, now: int): (r: seq<Message>)
    ensures |r| == |s|
    ensures forall i :: 0 <= i < |s| && s[i].id != id ==> r[i] == s[i]
    ensures forall i :: 0 <= i < |s| && s[i].id == id ==> r[i] == Message(id, text, DriverSender, now)
  {
    if s == [] then []
    else [if s[0].id == id then Message(id, text, DriverSender, now) else s[0]] + RestampWhere(s[1..], id, text, now)
  }

  /** `list.filter(msg => msg.id !== id)`. */
  function RemoveWhere(s: seq<Message>, id: string): (r: seq<Message>)
    ensures |r| <= |s|
    ensures forall i :: 0 <= i < |r| ==> r[i].id != id
  {
    if s == [] then []
    else if s[0].id == id then RemoveWhere(s[1..], id)
    else [s[0]] + RemoveWhere(s[1..], id)
  }

  /** Removing keeps every message with another id, as often as it occurred, and only those. */
  lemma {:induction false} RemoveCounts(s: seq<Message>, id: string, m: Message)
    ensures multiset(RemoveWhere(s, id))[m] == if m.id == id then 0 else multiset(s)[m]
  {
    if s != [] {
      RemoveCounts(s[1..], id, m);
      assert s == [s[0]] + s[1..];
    }
  }

  /** Removing distributes over concatenation: the kept messages stay in their relative order. */
  lemma {:induction false} RemoveAppend(a: seq<Message>, b: seq<Message>, id: string)
    ensures RemoveWhere(a + b, id) == RemoveWhere(a, id) + RemoveWhere(b, id)
  {
    if a == [] {
      assert a + b == b;
    } else {
      var ab := a + b;
      assert ab[0] == a[0] && ab[1..] == a[1..] + b;
      RemoveAppend(a[1..], b, id);
      if a[0].id == id {
        assert RemoveWhere(ab, id) == RemoveWhere(ab[1..], id);
      } else {
        assert RemoveWhere(ab, id) == [a[0]] + RemoveWhere(ab[1..], id);
      }
    }
  }

  /** Removing an id that no message has changes nothing. */
  lemma {:induction false} RemoveAbsent(s: seq<Message>, id: string)
    requires forall i :: 0 <= i < |s| ==> s[i].id != id
    ensures RemoveWhere(s, id) == s
  {
    if s != [] {
      RemoveAbsent(s[1..], id);
    }
  }

  /** Removing the same id twice is the same as removing it once. */
  lemma RemoveIdempotent(s: seq<Message>, id: string)
    ensures RemoveWhere(RemoveWhere(s, id), id) == RemoveWhere(s, id)
  {
    RemoveAbsent(RemoveWhere(s, id), id);
  }

  /** Removing keeps the list sorted. */
  lemma {:induction false} RemoveKeepsSorted(s: seq<Message>, id: string)
    requires SortedByTime(s)
    ensures SortedByTime(RemoveWhere(s, id))
  {
    if s != [] {
      RemoveKeepsSorted(s[1..], id);
      var rest := RemoveWhere(s[1..], id);
      forall k | 0 <= k < |rest|
        ensures s[0].createdAt <= rest[k].createdAt
      {
        RemoveCounts(s[1..], id, rest[k]);
        assert rest[k] in multiset(rest);
        assert rest[k] in multiset(s[1..]);
        var idx :| 0 <= idx < |s[1..]| && s[1..][idx] == rest[k];
        assert s[idx + 1] == rest[k];
      }
    }
  }

  /** Changing only texts keeps the list sorted and keeps its ids. */
  lemma SetTextKeepsOrderAndIds(s: seq<Message>, id: string, text: string)
    ensures SortedByTime(s) ==> SortedByTime(SetTextWhere(s, id, text))
    ensures Ids(SetTextWhere(s, id, text)) == Ids(s)
  {
  }

  /** Editing the same message twice leaves only the second text. */
  lemma SetTextLastWins(s: seq<Message>, id: string, t1: string, t2: string)
    ensures SetTextWhere(SetTextWhere(s, id, t1), id, t2) == SetTextWhere(s, id, t2)
  {
  }

  /** With distinct ids, an edit changes at most one message. */
  lemma SetTextChangesAtMostOne(s: seq<Message>, id: string, text: string, i: int, j: int)
    requires DistinctIds(s)
    requires 0 <= i < j < |s|
    ensures SetTextWhere(s, id, text)[i] == s[i] || SetTextWhere(s, id, text)[j] == s[j]
  {
  }

  /** Appending a message no earlier than the rest keeps the list sorted. */
  lemma AppendLatestKeepsSorted(s: seq<Message>, m: Message)
    requires SortedByTime(s)
    requires AllAtOrBefore(s, m.createdAt)
    ensures SortedByTime(s + [m])
  {
  }

  /** Rearranging a list does not change its latest timestamp bound. */
  lemma PermutationKeepsBound(s: seq<Message>, p: seq<Message>, t: int)
    requires multiset(p) == multiset(s)
    requires AllAtOrBefore(s, t)
    ensures AllAtOrBefore(p, t)
  {
    forall i | 0 <= i < |p|
      ensures p[i].createdAt <= t
    {
      assert p[i] in multiset(s);
      var j :| 0 <= j < |s| && s[j] == p[i];
    }
  }

  /** In a sorted list bounded by `t` that reaches `t`, the last message is at `t`. */
  lemma SortedEndsAtBound(s: seq<Message>, t: int, j: int)
    requires SortedByTime(s)
    requires AllAtOrBefore(s, t)
    requires 0 <= j < |s| && s[j].createdAt == t
    ensures s[|s| - 1].createdAt == t
  {
  }

  /** `message.trim() === ""`: the send button's guard. */
  predicate IsBlank(text: string) {
    Text.Trim(Text.JsWhitespace, text) == []
  }
}
