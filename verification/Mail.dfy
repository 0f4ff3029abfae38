/** Notification mail: who gets a row, how claimed rows fold into one message per person, and how the
    outcome of a message is written back to every row in it. */
module Mail {
  import opened Wrappers
  import opened Int64
  import Cursor
  import Nonce
  import Outbox
  import opened Sets

  type Id = nat

  const MAX_ATTEMPTS := 4

  datatype Item = Item(id: Id, recipient: string, attempts: nat)

  /** The case-folded address. */
  function KeyOf(item: Item): string {
    Nonce.Lower(Cursor.Trimmed(item.recipient))
  }

  // ----- One message per person

  /** The addresses in the order they first appear. */
  function Keys(items: seq<Item>): seq<string> {
    if items == [] then []
    else
      var before, key := Keys(items[..|items| - 1]), KeyOf(items[|items| - 1]);
      if key in before then before else before + [key]
  }

  function AddressedTo(items: seq<Item>, key: string): seq<Item> {
    if items == [] then []
    else
      var before, last := AddressedTo(items[..|items| - 1], key), items[|items| - 1];
      if KeyOf(last) == key then before + [last] else before
  }

  function Messages(items: seq<Item>): seq<seq<Item>> {
    seq(|Keys(items)|, i requires 0 <= i < |Keys(items)| => AddressedTo(items, Keys(items)[i]))
  }

  /** The delivery loop: a map from address to rows, and a list of addresses to keep the order. */
  method GroupByRecipient(items: seq<Item>) returns (messages: seq<seq<Item>>)
    ensures messages == Messages(items)
  {
    var byRecipient: map<string, seq<Item>> := map[];
    var order: seq<string> := [];
    for i := 0 to |items|
      invariant order == Keys(items[..i])
      invariant forall key :: key in byRecipient <==> key in order
      invariant forall key :: key in byRecipient ==> byRecipient[key] == AddressedTo(items[..i], key)
      invariant forall key :: key !in byRecipient ==> AddressedTo(items[..i], key) == []
    {
      assert items[..i + 1][..i] == items[..i];
      var key := KeyOf(items[i]);
      if key !in byRecipient {
        order := order + [key];
        byRecipient := byRecipient[key := [items[i]]];
      } else {
        byRecipient := byRecipient[key := byRecipient[key] + [items[i]]];
      }
    }
    assert items[..|items|] == items;
    messages := [];
    for i := 0 to |order|
      invariant |messages| == i && forall j :: 0 <= j < i ==> messages[j] == AddressedTo(items, order[j])
    {
      messages := messages + [byRecipient[order[i]]];
    }
  }

  lemma {:induction false} KeysDistinct(items: seq<Item>)
    ensures forall i, j :: 0 <= i < j < |Keys(items)| ==> Keys(items)[i] != Keys(items)[j]
    ensures forall i :: 0 <= i < |items| ==> KeyOf(items[i]) in Keys(items)
  {
    if items != [] {
      KeysDistinct(items[..|items| - 1]);
      assert items == items[..|items| - 1] + [items[|items| - 1]];
    }
  }

  lemma {:induction false} AddressedToExactly(items: seq<Item>, key: string)
    ensures forall item :: item in AddressedTo(items, key) <==> item in items && KeyOf(item) == key
    ensures key in Keys(items) <==> AddressedTo(items, key) != []
  {
    if items != [] {
      AddressedToExactly(items[..|items| - 1], key);
      assert items == items[..|items| - 1] + [items[|items| - 1]];
    }
  }

  /** Each message has one case-folded recipient and something to say, no two messages of a batch share a
      recipient, and every claimed row is in the message of its recipient and in no other. */
  lemma OneMessagePerPerson(items: seq<Item>)
    ensures
      var messages := Messages(items);
      && (forall m :: 0 <= m < |messages| ==> messages[m] != [])
      && (forall m, item :: 0 <= m < |messages| && item in messages[m] ==>
          item in items && KeyOf(item) == Keys(items)[m])
      && (forall m, n, a, b :: 0 <= m < n < |messages| && a in messages[m] && b in messages[n] ==> KeyOf(a) != KeyOf(b))
      && (forall item :: item in items ==> exists m :: 0 <= m < |messages| && item in messages[m])
  {
    KeysDistinct(items);
    var keys, messages := Keys(items), Messages(items);
    forall m | 0 <= m < |messages|
      ensures messages[m] != [] && forall item :: item in messages[m] ==> item in items && KeyOf(item) == keys[m]
    {
      AddressedToExactly(items, keys[m]);
    }
    forall item | item in items ensures exists m :: 0 <= m < |messages| && item in messages[m] {
      var m :| 0 <= m < |keys| && keys[m] == KeyOf(item);
      AddressedToExactly(items, keys[m]);
      assert item in messages[m];
    }
  }

  function Flattened(messages: seq<seq<Item>>): seq<Item> {
    if messages == [] then [] else Flattened(messages[..|messages| - 1]) + messages[|messages| - 1]
  }

  lemma {:induction false} FlattenedAdd(messages: seq<seq<Item>>, m: nat, item: Item)
    requires m < |messages|
    ensures multiset(Flattened(messages[m := messages[m] + [item]])) == multiset(Flattened(messages)) + multiset{item}
  {
    var after, last := messages[m := messages[m] + [item]], |messages| - 1;
    if m == last {
      assert after[..last] == messages[..last];
    } else {
      FlattenedAdd(messages[..last], m, item);
      assert after[..last] == messages[..last][m := messages[m] + [item]];
    }
  }

  lemma NewMessage(items: seq<Item>, item: Item)
    requires KeyOf(item) !in Keys(items) && AddressedTo(items, KeyOf(item)) == []
    ensures Messages(items + [item]) == Messages(items) + [[item]]
  {
    var all, key := items + [item], KeyOf(item);
    assert all[..|items|] == items;
    assert Keys(all) == Keys(items) + [key];
    forall i | 0 <= i < |Keys(items)| ensures AddressedTo(all, Keys(all)[i]) == AddressedTo(items, Keys(items)[i]) {
      assert Keys(items)[i] in Keys(items);
    }
    assert AddressedTo(all, key) == [] + [item];
    var before, after := Messages(items), Messages(all);
    assert |after| == |before| + 1;
    forall i | 0 <= i < |before| ensures after[i] == before[i] {
      assert Keys(all)[i] == Keys(items)[i];
    }
    assert after[|before|] == [item];
    assert after == before + [[item]];
  }

  /** One more row either opens a message of its own or joins the message of its recipient. */
  lemma OneMoreItem(items: seq<Item>, item: Item) returns (m: nat)
    ensures KeyOf(item) !in Keys(items) ==> Messages(items + [item]) == Messages(items) + [[item]]
    ensures KeyOf(item) in Keys(items) ==>
      m < |Messages(items)| && Messages(items + [item]) == Messages(items)[m := Messages(items)[m] + [item]]
  {
    var all, key := items + [item], KeyOf(item);
    assert all[..|items|] == items;
    KeysDistinct(items);
    m := 0;
    if key in Keys(items) {
      m :| m < |Keys(items)| && Keys(items)[m] == key;
      assert Messages(all) == Messages(items)[m := Messages(items)[m] + [item]];
    } else {
      AddressedToExactly(items, key);
      NewMessage(items, item);
    }
  }

  /** The messages partition the claimed rows: each goes out exactly as often as it was claimed. */
  lemma {:induction false} MessagesPartition(items: seq<Item>)
    ensures multiset(Flattened(Messages(items))) == multiset(items)
  {
    if items == [] {
      assert Messages(items) == [];
    } else {
      var front, item := items[..|items| - 1], items[|items| - 1];
      MessagesPartition(front);
      var m := OneMoreItem(front, item);
      assert items == front + [item];
      if KeyOf(item) in Keys(front) {
        FlattenedAdd(Messages(front), m, item);
      } else {
        assert (Messages(front) + [[item]])[..|Messages(front)|] == Messages(front);
      }
    }
  }

  // ----- Recipients

  /** The audience without the nil id, the actor and repetitions. */
  method Recipients(candidates: seq<Id>, actor: Option<Id>) returns (recipients: seq<Id>)
    ensures recipients == Outbox.Queued([], candidates, actor, map[])
  {
    recipients := [];
    for i := 0 to |candidates|
      invariant recipients == Outbox.Queued([], candidates[..i], actor, map[])
    {
      assert candidates[..i + 1][..i] == candidates[..i];
      var candidate := candidates[i];
      if candidate == Outbox.NIL || actor == Some(candidate) {
        continue;
      }
      var duplicate := false;
      for j := 0 to |recipients|
        invariant duplicate <==> candidate in recipients[..j]
      {
        duplicate := duplicate || recipients[j] == candidate;
      }
      assert recipients[..|recipients|] == recipients;
      if !duplicate {
        recipients := recipients + [candidate];
      }
    }
    assert candidates[..|candidates|] == candidates;
  }

  // ----- The table

  datatype Status = Waiting | Retry | Sending | Sent | Failed

  datatype Row = Row(recipient: string, status: Status, attempts: nat, body: bool)

  /** A row after an attempt: sent, tried again later, or failed for good; the body goes with the last two ends. */
  function Recorded(row: Row, attempts: nat, delivered: bool, final: bool): Row {
    if delivered then row.(status := Sent, body := false)
    else if final || attempts >= MAX_ATTEMPTS then row.(status := Failed, body := false)
    else row.(status := Retry)
  }

  /** Whether a delivery pass takes the row: its address is due, and it is not waiting out a backoff. */
  predicate Taken(id: Id, row: Row, due: set<string>, ready: set<Id>) {
    (row.status.Waiting? || (row.status.Retry? && id in ready)) && Nonce.Lower(row.recipient) in due
  }

  function Claimed(row: Row): Row {
    row.(status := Sending, attempts := row.attempts + 1)
  }

  /** What a whole pass makes of a row. */
  function Delivered(id: Id, row: Row, due: set<string>, ready: set<Id>, valid: bool, accepted: set<string>): Row {
    if !Taken(id, row, due, ready) then row
    else
      Recorded(Claimed(row), row.attempts + 1, valid && Nonce.Lower(Cursor.Trimmed(row.recipient)) in accepted, !valid)
  }

  predicate Distinct(ids: seq<Id>) {
    forall i, j :: 0 <= i < j < |ids| ==> ids[i] != ids[j]
  }

  class Outgoing {
    var rows: map<Id, Row>

    constructor ()
      ensures rows == map[]
    {
      rows := map[];
    }

    /** Writes the outcome of one message to every row that went into it. */
    method RecordMail(items: seq<Item>, delivered: bool, final: bool)
      requires forall i :: 0 <= i < |items| ==> items[i].id in rows
      requires forall i, j :: 0 <= i < j < |items| ==> items[i].id != items[j].id
      modifies this
      ensures rows.Keys == old(rows).Keys
      ensures forall i :: 0 <= i < |items| ==>
        rows[items[i].id] == Recorded(old(rows)[items[i].id], items[i].attempts, delivered, final)
      ensures forall id :: id in rows && (forall i :: 0 <= i < |items| ==> items[i].id != id) ==>
                rows[id] == old(rows)[id]
    {
      for k := 0 to |items|
        invariant rows.Keys == old(rows).Keys
        invariant forall i :: 0 <= i < k ==>
          rows[items[i].id] == Recorded(old(rows)[items[i].id], items[i].attempts, delivered, final)
        invariant forall i :: k <= i < |items| ==> rows[items[i].id] == old(rows)[items[i].id]
        invariant forall id :: id in rows && (forall i :: 0 <= i < |items| ==> items[i].id != id) ==>
                    rows[id] == old(rows)[id]
      {
        var item := items[k];
        if delivered {
          rows := rows[item.id := rows[item.id].(status := Sent, body := false)];
        } else {
          var status := Retry;
          if final || item.attempts >= MAX_ATTEMPTS {
            status := Failed;
          }
          rows := rows[item.id := rows[item.id].(status := status, body := rows[item.id].body && status != Failed)];
        }
      }
    }

    /** One statement claims the rows; `ids` is the order it returns them in. */
    method ClaimDue(due: set<string>, ready: set<Id>, ids: seq<Id>) returns (items: seq<Item>)
      requires Distinct(ids) && forall id :: id in ids <==> id in rows && Taken(id, rows[id], due, ready)
      modifies this
      ensures rows.Keys == old(rows).Keys
      ensures forall id :: id in rows ==> rows[id] == if id in ids then Claimed(old(rows)[id]) else old(rows)[id]
      ensures |items| == |ids|
      ensures forall i :: 0 <= i < |ids| ==>
                items[i] == Item(ids[i], old(rows)[ids[i]].recipient, old(rows)[ids[i]].attempts + 1)
    {
      var table := map id | id in rows ::
        if id in ids then rows[id].(status := Sending, attempts := rows[id].attempts + 1) else rows[id];
      forall i | 0 <= i < |ids| ensures ids[i] in table {
        assert ids[i] in ids;
      }
      items := seq(|ids|, i requires 0 <= i < |ids| => Item(ids[i], table[ids[i]].recipient, table[ids[i]].attempts));
      rows := table;
    }

    /** One message: all the rows of one address, and the outcome written to each. */
    method SendMail(items: seq<Item>, key: string, delivered: bool, final: bool)
      requires DistinctItems(items) && forall i :: 0 <= i < |items| ==> items[i].id in rows
      modifies this
      ensures rows.Keys == old(rows).Keys
      ensures forall i :: 0 <= i < |items| ==>
        rows[items[i].id] == if KeyOf(items[i]) == key then
                               Recorded(old(rows)[items[i].id], items[i].attempts, delivered, final)
                             else old(rows)[items[i].id]
      ensures forall id :: id in rows && (forall i :: 0 <= i < |items| ==> items[i].id != id) ==>
                rows[id] == old(rows)[id]
    {
      var message := AddressedTo(items, key);
      AddressedToExactly(items, key);
      AddressedDistinct(items, key);
      forall j | 0 <= j < |message| ensures message[j].id in rows {
        assert message[j] in items;
      }
      RecordMail(message, delivered, final);
      forall i | 0 <= i < |items|
        ensures rows[items[i].id] == if KeyOf(items[i]) == key then
                                       Recorded(old(rows)[items[i].id], items[i].attempts, delivered, final)
                                     else old(rows)[items[i].id]
      {
        if KeyOf(items[i]) == key {
          var j :| 0 <= j < |message| && message[j] == items[i];
        } else {
          OtherMessage(items, key, i);
        }
      }
      forall id | id in rows && (forall i :: 0 <= i < |items| ==> items[i].id != id) ensures rows[id] == old(rows)[id] {
        forall j | 0 <= j < |message| ensures message[j].id != id {
          assert message[j] in items;
        }
      }
    }

    /** All the messages of a batch, address by address. */
    method SendAll(items: seq<Item>, valid: bool, accepted: set<string>)
      requires DistinctItems(items) && forall i :: 0 <= i < |items| ==> items[i].id in rows
      modifies this
      ensures rows.Keys == old(rows).Keys
      ensures forall i :: 0 <= i < |items| ==>
        rows[items[i].id]
          == Recorded(old(rows)[items[i].id], items[i].attempts, valid && KeyOf(items[i]) in accepted, !valid)
      ensures forall id :: id in rows && (forall i :: 0 <= i < |items| ==> items[i].id != id) ==>
                rows[id] == old(rows)[id]
    {
      var keys := Keys(items);
      KeysDistinct(items);
      for m := 0 to |keys|
        invariant rows.Keys == old(rows).Keys
        invariant forall i :: 0 <= i < |items| ==>
          rows[items[i].id] == if KeyOf(items[i]) in keys[..m]
            then Recorded(old(rows)[items[i].id], items[i].attempts, valid && KeyOf(items[i]) in accepted, !valid)
            else old(rows)[items[i].id]
        invariant forall id :: id in rows && (forall i :: 0 <= i < |items| ==> items[i].id != id) ==>
                    rows[id] == old(rows)[id]
      {
        assert keys[m] !in keys[..m];
        assert keys[..m + 1] == keys[..m] + [keys[m]];
        SendMail(items, keys[m], valid && keys[m] in accepted, !valid);
      }
      assert keys[..|keys|] == keys;
    }

    /** Whoever is due gets everything queued for them in one message; the relay accepts the messages to
        `accepted`, and nothing is sent at all when the configuration is not `valid`. */
    method DeliverMail(due: set<string>, ready: set<Id>, ids: seq<Id>, valid: bool, accepted: set<string>)
        returns (total: nat)
      requires Distinct(ids) && forall id :: id in ids <==> id in rows && Taken(id, rows[id], due, ready)
      modifies this
      ensures total == |ids| && rows.Keys == old(rows).Keys
      ensures forall id :: id in rows ==> rows[id] == Delivered(id, old(rows)[id], due, ready, valid, accepted)
    {
      var items := ClaimDue(due, ready, ids);
      forall i | 0 <= i < |items| ensures items[i].id in rows {
        assert ids[i] in ids;
      }
      SendAll(items, valid, accepted);
      forall id | id in rows ensures rows[id] == Delivered(id, old(rows)[id], due, ready, valid, accepted) {
        if id in ids {
          var i :| 0 <= i < |ids| && ids[i] == id;
          assert items[i].id == id;
        } else {
          forall i | 0 <= i < |items| ensures items[i].id != id {
            assert ids[i] in ids;
          }
        }
      }
      return |ids|;
    }
  }

  predicate DistinctItems(items: seq<Item>) {
    forall i, j :: 0 <= i < j < |items| ==> items[i].id != items[j].id
  }

  lemma {:induction false} AddressedDistinct(items: seq<Item>, key: string)
    requires DistinctItems(items)
    ensures DistinctItems(AddressedTo(items, key))
  {
    if items != [] {
      var front := items[..|items| - 1];
      AddressedDistinct(front, key);
      AddressedToExactly(front, key);
      forall j | 0 <= j < |AddressedTo(front, key)| ensures AddressedTo(front, key)[j].id != items[|items| - 1].id {
        assert AddressedTo(front, key)[j] in front;
      }
    }
  }

  lemma OtherMessage(items: seq<Item>, key: string, i: nat)
    requires DistinctItems(items) && i < |items| && KeyOf(items[i]) != key
    ensures forall j :: 0 <= j < |AddressedTo(items, key)| ==> AddressedTo(items, key)[j].id != items[i].id
  {
    AddressedToExactly(items, key);
    forall j | 0 <= j < |AddressedTo(items, key)| ensures AddressedTo(items, key)[j].id != items[i].id {
      assert AddressedTo(items, key)[j] in items;
      var k :| 0 <= k < |items| && items[k] == AddressedTo(items, key)[j];
    }
  }

  // ----- What a pass is for

  /** A pass takes a row exactly if its address is due and it is waiting, or waiting for its next try whose time has
      come; and a row it took is sent if the relay accepted its address, given up if it cannot be tried again, and
      tried again otherwise. The body goes with the first two. */
  lemma PassOutcome(id: Id, row: Row, due: set<string>, ready: set<Id>, valid: bool, accepted: set<string>)
    ensures
      var after := Delivered(id, row, due, ready, valid, accepted);
      var sent := valid && KeyOf(Item(id, row.recipient, 0)) in accepted;
      var takes := Nonce.Lower(row.recipient) in due && (row.status.Waiting? || (row.status.Retry? && id in ready));
      if !takes then after == row
      else if sent then after == Row(row.recipient, Sent, row.attempts + 1, false)
      else if !valid || row.attempts >= 3 then after == Row(row.recipient, Failed, row.attempts + 1, false)
      else after == Row(row.recipient, Retry, row.attempts + 1, row.body)
  {
  }

  /** The same letter, up to the case of an ASCII letter. */
  predicate SameLetter(a: char, b: char) {
    a == b || ('A' <= a <= 'Z' && b as int == a as int + 32) || ('A' <= b <= 'Z' && a as int == b as int + 32)
  }

  lemma TrimmedBare(s: string)
    requires s != "" ==> !Cursor.IsSpace(s[0]) && !Cursor.IsSpace(s[|s| - 1])
    ensures Cursor.Trimmed(s) == s
  {
  }

  /** Two addresses without blanks around them share a message exactly if they are the same up to case. */
  lemma SamePersonIff(a: Item, b: Item)
    requires a.recipient != "" ==> !Cursor.IsSpace(a.recipient[0]) && !Cursor.IsSpace(a.recipient[|a.recipient| - 1])
    requires b.recipient != "" ==> !Cursor.IsSpace(b.recipient[0]) && !Cursor.IsSpace(b.recipient[|b.recipient| - 1])
    ensures KeyOf(a) == KeyOf(b)
      <==> && |a.recipient| == |b.recipient|
           && forall i :: 0 <= i < |a.recipient| ==> SameLetter(a.recipient[i], b.recipient[i])
  {
    TrimmedBare(a.recipient);
    TrimmedBare(b.recipient);
    if KeyOf(a) == KeyOf(b) {
      forall i | 0 <= i < |a.recipient| ensures SameLetter(a.recipient[i], b.recipient[i]) {
        assert KeyOf(a)[i] == KeyOf(b)[i];
      }
    }
  }

  // ----- A row whose every attempt is recorded

  /** A row's life over the answers the relay gives, one attempt each while it is not final. */
  function Attempts(row: Row, outcomes: seq<bool>): Row {
    if outcomes == [] then row
    else
      var before := Attempts(row, outcomes[..|outcomes| - 1]);
      if before.status.Waiting? || before.status.Retry? then
        Recorded(Claimed(before), before.attempts + 1, outcomes[|outcomes| - 1], false)
      else before
  }

  predicate Delivers(outcomes: seq<bool>) {
    exists i :: 0 <= i < |outcomes| && i < MAX_ATTEMPTS && outcomes[i]
  }

  lemma DeliversLast(outcomes: seq<bool>)
    requires outcomes != []
    ensures Delivers(outcomes)
      <==> Delivers(outcomes[..|outcomes| - 1]) || (|outcomes| <= MAX_ATTEMPTS && outcomes[|outcomes| - 1])
  {
    var front := outcomes[..|outcomes| - 1];
    if Delivers(front) {
      var i :| 0 <= i < |front| && i < MAX_ATTEMPTS && front[i];
      assert outcomes[i];
    }
    if Delivers(outcomes) {
      var i :| 0 <= i < |outcomes| && i < MAX_ATTEMPTS && outcomes[i];
      assert i < |front| ==> outcomes[i] == front[i];
    }
  }

  /** Over any sequence of relay answers a row is attempted until the first success or the fourth attempt,
      is sent exactly when one of those succeeds, and keeps its body exactly as long as it may be sent again. */
  lemma {:induction false} AtMostFourAttempts(recipient: string, outcomes: seq<bool>)
    ensures
      var row := Attempts(Row(recipient, Waiting, 0, true), outcomes);
      && row.attempts <= MAX_ATTEMPTS && (row.status.Sent? <==> Delivers(outcomes))
      && (!row.status.Sent? ==> row.attempts == if |outcomes| < MAX_ATTEMPTS then |outcomes| else MAX_ATTEMPTS)
      && (row.status.Failed? <==> !row.status.Sent? && |outcomes| >= MAX_ATTEMPTS)
      && (row.body <==> !row.status.Sent? && !row.status.Failed?) && !row.status.Sending?
  {
    if outcomes != [] {
      AtMostFourAttempts(recipient, outcomes[..|outcomes| - 1]);
      DeliversLast(outcomes);
    }
  }

  // ----- A row with several workers, crashes and reclaims

  /** A worker's attempt: the attempt number it claimed, and what the relay answered, if it has. */
  datatype Flight = Flight(seen: nat, answer: Option<bool>)

  /** A row, the attempts in flight, and how often the relay has taken its message. */
  datatype Life = Life(row: Row, flights: map<Id, Flight>, taken: nat)

  /** `Refuse` is an attempt that a configuration that cannot send fails at once; `SwitchOff` is the sweep that
      fails what is queued while mail is off. */
  datatype Move =
    | Claim(worker: Id)
    | Answer(worker: Id, ok: bool)
    | Record(worker: Id)
    | Refuse(worker: Id)
    | Crash(worker: Id)
    | Reclaim
    | SwitchOff

  function NewLife(recipient: string): Life {
    Life(Row(recipient, Waiting, 0, true), map[], 0)
  }

  predicate Claimable(l: Life) {
    l.row.status.Waiting? || l.row.status.Retry?
  }

  predicate Unanswered(l: Life, w: Id) {
    w in l.flights && l.flights[w].answer.None?
  }

  /** Recording does not look at the status it replaces, and a reclaim does not touch the attempts. */
  function Moved(l: Life, m: Move): Life {
    match m
    case Claim(w) =>
      if Claimable(l) && w !in l.flights then
        l.(row := Claimed(l.row), flights := l.flights[w := Flight(l.row.attempts + 1, None)])
      else l
    case Answer(w, ok) =>
      if Unanswered(l, w) then
        l.(flights := l.flights[w := l.flights[w].(answer := Some(ok))], taken := l.taken + if ok then 1 else 0)
      else l
    case Record(w) =>
      if w in l.flights && l.flights[w].answer.Some? then
        l.(row := Recorded(l.row, l.flights[w].seen, l.flights[w].answer.value, false), flights := l.flights - {w})
      else l
    case Refuse(w) =>
      if Unanswered(l, w) then
        l.(row := Recorded(l.row, l.flights[w].seen, false, true), flights := l.flights - {w})
      else l
    case Crash(w) => l.(flights := l.flights - {w})
    case Reclaim => if l.row.status.Sending? then l.(row := l.row.(status := Retry)) else l
    case SwitchOff => if Claimable(l) then l.(row := l.row.(status := Failed, body := false)) else l
  }

  function Lived(l: Life, moves: seq<Move>): Life {
    if moves == [] then l else Moved(Lived(l, moves[..|moves| - 1]), moves[|moves| - 1])
  }

  predicate TakesBack(l: Life, m: Move) {
    m.Reclaim? && l.row.status.Sending?
  }

  function Reclaims(l: Life, moves: seq<Move>): nat {
    if moves == [] then 0
    else
      var front := moves[..|moves| - 1];
      Reclaims(l, front) + if TakesBack(Lived(l, front), moves[|moves| - 1]) then 1 else 0
  }

  /** Whatever is queued when mail is off is failed and loses its body, and so is an attempt that cannot be made. */
  lemma GivenUpAtOnce(l: Life, w: Id)
    ensures Claimable(l) ==> Moved(l, SwitchOff) == l.(row := Row(l.row.recipient, Failed, l.row.attempts, false))
    ensures Unanswered(l, w) ==>
      Moved(l, Refuse(w)) == l.(row := Row(l.row.recipient, Failed, l.row.attempts, false), flights := l.flights - {w})
  {
  }

  // ----- What a row may still cost

  /** The flights whose message the relay has not taken. */
  function Untaken(l: Life): set<Id> {
    set w | w in l.flights && l.flights[w].answer != Some(true)
  }

  /** Those that can still put the row back to retry. */
  function Retriable(l: Life): set<Id> {
    set w | w in l.flights && l.flights[w].answer != Some(true) && l.flights[w].seen < MAX_ATTEMPTS
  }

  function Turn(l: Life): nat {
    if Claimable(l) then 1 else 0
  }

  /** How often the relay has taken the message and, unless the row is taken back, still can. */
  function Takings(l: Life): nat {
    l.taken + |Untaken(l)| + Turn(l)
  }

  /** How often the row has been attempted and, unless it is taken back, still can be. */
  function Tries(l: Life): int {
    l.row.attempts + |Retriable(l)| + Turn(l) + Greatest(0, MAX_ATTEMPTS - 1 - l.row.attempts)
  }

  /** Everything that ends an attempt or leaves it alone takes no flight on. */
  lemma FlightsShrink(l: Life, after: Life)
    requires forall w :: w in after.flights ==> w in l.flights && after.flights[w] == l.flights[w]
    ensures |Untaken(after)| <= |Untaken(l)| && |Retriable(after)| <= |Retriable(l)|
  {
    FewerElements(Untaken(after), Untaken(l));
    FewerElements(Retriable(after), Retriable(l));
  }

  lemma FlightEnds(l: Life, after: Life, w: Id)
    requires w in l.flights && after.flights == l.flights - {w}
    ensures |Untaken(after)| == |Untaken(l)| - if w in Untaken(l) then 1 else 0
    ensures |Retriable(after)| == |Retriable(l)| - if w in Retriable(l) then 1 else 0
  {
    assert Untaken(after) == Untaken(l) - {w} && Retriable(after) == Retriable(l) - {w};
  }

  lemma FlightStarts(l: Life, after: Life, w: Id, seen: nat)
    requires w !in l.flights && after.flights == l.flights[w := Flight(seen, None)]
    ensures |Untaken(after)| == |Untaken(l)| + 1
    ensures |Retriable(after)| == |Retriable(l)| + if seen < MAX_ATTEMPTS then 1 else 0
  {
    assert Untaken(after) == Untaken(l) + {w};
    if seen < MAX_ATTEMPTS {
      assert Retriable(after) == Retriable(l) + {w};
    } else {
      assert Retriable(after) == Retriable(l);
    }
  }

  lemma AnswerCosts(l: Life, w: Id, ok: bool)
    requires Unanswered(l, w)
    ensures
      var after := Moved(l, Answer(w, ok));
      |Untaken(after)| == |Untaken(l)| - (if ok then 1 else 0) && |Retriable(after)| <= |Retriable(l)|
  {
    var after := Moved(l, Answer(w, ok));
    FewerElements(Retriable(after), Retriable(l));
    if ok {
      assert Untaken(after) == Untaken(l) - {w};
    } else {
      assert Untaken(after) == Untaken(l);
    }
  }

  /** A move costs nothing more, except that taking the row back costs one of each. */
  lemma MoveCosts(l: Life, m: Move)
    ensures
      var more := if TakesBack(l, m) then 1 else 0;
      Takings(Moved(l, m)) <= Takings(l) + more && Tries(Moved(l, m)) <= Tries(l) + more
  {
    var after := Moved(l, m);
    if after != l {
      match m
      case Claim(w) => FlightStarts(l, after, w, l.row.attempts + 1);
      case Answer(w, ok) => AnswerCosts(l, w, ok);
      case Record(w) => FlightEnds(l, after, w);
      case Refuse(w) => FlightEnds(l, after, w);
      case Crash(w) => FlightsShrink(l, after);
      case Reclaim => FlightsShrink(l, after);
      case SwitchOff => FlightsShrink(l, after);
    }
  }

  lemma {:induction false} LifeCosts(l: Life, moves: seq<Move>)
    ensures Takings(Lived(l, moves)) <= Takings(l) + Reclaims(l, moves)
    ensures Tries(Lived(l, moves)) <= Tries(l) + Reclaims(l, moves)
  {
    if moves != [] {
      LifeCosts(l, moves[..|moves| - 1]);
      MoveCosts(Lived(l, moves[..|moves| - 1]), moves[|moves| - 1]);
    }
  }

  /** Whatever the workers do, the relay takes a message at most once and once more for each reclaim, and a row is
      attempted at most four times and once more for each reclaim. */
  lemma AttemptsBounded(recipient: string, moves: seq<Move>)
    ensures
      var l, reclaims := Lived(NewLife(recipient), moves), Reclaims(NewLife(recipient), moves);
      l.taken <= 1 + reclaims && l.row.attempts <= MAX_ATTEMPTS + reclaims
  {
    var l := NewLife(recipient);
    assert Untaken(l) == {} && Retriable(l) == {};
    LifeCosts(l, moves);
  }

  // ----- Both bounds are met for any number of reclaims

  lemma LivedOne(l: Life, moves: seq<Move>, m: Move)
    ensures Lived(l, moves + [m]) == Moved(Lived(l, moves), m)
    ensures Reclaims(l, moves + [m]) == Reclaims(l, moves) + if TakesBack(Lived(l, moves), m) then 1 else 0
  {
    assert (moves + [m])[..|moves|] == moves;
  }

  lemma LivedThree(l: Life, before: seq<Move>, a: Move, b: Move, c: Move)
    ensures Lived(l, before + [a, b, c]) == Moved(Moved(Moved(Lived(l, before), a), b), c)
    ensures
      var here := Lived(l, before);
      Reclaims(l, before + [a, b, c])
      == Reclaims(l, before) + (if TakesBack(here, a) then 1 else 0) + (if TakesBack(Moved(here, a), b) then 1 else 0)
         + (if TakesBack(Moved(Moved(here, a), b), c) then 1 else 0)
  {
    LivedOne(l, before, a);
    LivedOne(l, before + [a], b);
    LivedOne(l, before + [a] + [b], c);
    assert before + [a] + [b] + [c] == before + [a, b, c];
  }

  /** The row waits for its next attempt, which nobody has taken up. */
  predicate Waits(l: Life, attempts: nat, taken: nat) {
    Claimable(l) && l.flights == map[] && l.row.attempts == attempts && l.taken == taken
  }

  /** A worker that disappears after the relay took the message, and the row taken back: sent, and to be sent again. */
  lemma {:induction false} TakenAgain(recipient: string, k: nat) returns (moves: seq<Move>)
    ensures Reclaims(NewLife(recipient), moves) == k && Waits(Lived(NewLife(recipient), moves), k, k)
  {
    if k == 0 {
      moves := [];
    } else {
      var before := TakenAgain(recipient, k - 1);
      var l := NewLife(recipient);
      moves := before + [Claim(0), Answer(0, true), Crash(0)] + [Reclaim];
      LivedThree(l, before, Claim(0), Answer(0, true), Crash(0));
      LivedOne(l, before + [Claim(0), Answer(0, true), Crash(0)], Reclaim);
      assert Lived(l, moves).flights == map[];
    }
  }

  lemma Refused(l: Life, before: seq<Move>, attempts: nat, taken: nat)
    requires Waits(Lived(l, before), attempts, taken) && attempts + 1 < MAX_ATTEMPTS
    ensures
      var moves := before + [Claim(0), Answer(0, false), Record(0)];
      Waits(Lived(l, moves), attempts + 1, taken) && Reclaims(l, moves) == Reclaims(l, before)
  {
    LivedThree(l, before, Claim(0), Answer(0, false), Record(0));
    assert Lived(l, before + [Claim(0), Answer(0, false), Record(0)]).flights == map[];
  }

  /** Three refusals, and then workers that disappear and rows taken back. */
  lemma {:induction false} TriedAgain(recipient: string, k: nat) returns (moves: seq<Move>)
    ensures Reclaims(NewLife(recipient), moves) == k && Waits(Lived(NewLife(recipient), moves), MAX_ATTEMPTS - 1 + k, 0)
  {
    var l, refused := NewLife(recipient), [Claim(0), Answer(0, false), Record(0)];
    if k == 0 {
      Refused(l, [], 0, 0);
      Refused(l, [] + refused, 1, 0);
      Refused(l, [] + refused + refused, 2, 0);
      moves := [] + refused + refused + refused;
    } else {
      var before := TriedAgain(recipient, k - 1);
      moves := before + [Claim(0), Crash(0), Reclaim];
      LivedThree(l, before, Claim(0), Crash(0), Reclaim);
      assert Lived(l, moves).flights == map[];
    }
  }

  ghost predicate TakenAtMost(recipient: string, k: nat, n: int) {
    forall moves :: Reclaims(NewLife(recipient), moves) <= k ==> Lived(NewLife(recipient), moves).taken <= n
  }

  /** Over all lives with at most `k` reclaims the relay takes a message at most `n` times if and only if `n` is at
      least `k + 1`. So a message is sent once if and only if its row is never taken back. */
  lemma TakenAtMostIff(recipient: string, k: nat, n: int)
    ensures TakenAtMost(recipient, k, n) <==> k + 1 <= n
  {
    if k + 1 <= n {
      forall moves | Reclaims(NewLife(recipient), moves) <= k ensures Lived(NewLife(recipient), moves).taken <= n {
        AttemptsBounded(recipient, moves);
      }
    } else {
      var before := TakenAgain(recipient, k);
      LivedOne(NewLife(recipient), before, Claim(0));
      LivedOne(NewLife(recipient), before + [Claim(0)], Answer(0, true));
      var moves := before + [Claim(0)] + [Answer(0, true)];
      assert Reclaims(NewLife(recipient), moves) == k && Lived(NewLife(recipient), moves).taken == k + 1;
    }
  }

  ghost predicate AttemptedAtMost(recipient: string, k: nat, n: int) {
    forall moves :: Reclaims(NewLife(recipient), moves) <= k ==> Lived(NewLife(recipient), moves).row.attempts <= n
  }

  /** And a row is attempted at most `n` times if and only if `n` is at least `k + 4`. */
  lemma AttemptedAtMostIff(recipient: string, k: nat, n: int)
    ensures AttemptedAtMost(recipient, k, n) <==> k + MAX_ATTEMPTS <= n
  {
    if k + MAX_ATTEMPTS <= n {
      forall moves | Reclaims(NewLife(recipient), moves) <= k
        ensures Lived(NewLife(recipient), moves).row.attempts <= n
      {
        AttemptsBounded(recipient, moves);
      }
    } else {
      var before := TriedAgain(recipient, k);
      LivedOne(NewLife(recipient), before, Claim(0));
      assert Lived(NewLife(recipient), before + [Claim(0)]).row.attempts == k + MAX_ATTEMPTS;
    }
  }

  /** As long as nothing is reclaimed there is one worker at a time. */
  predicate Undisturbed(l: Life) {
    && (!l.row.status.Sending? ==> l.flights == map[])
    && (forall v, w :: v in l.flights && w in l.flights ==> v == w)
    && (l.row.body <==> !l.row.status.Sent? && !l.row.status.Failed?)
    && l.taken <= 1 && (l.taken == 1 ==> l.row.status.Sent? || l.row.status.Sending?)
    && (l.row.status.Sent? ==> l.taken == 1)
    && (forall w :: w in l.flights ==> (l.flights[w].answer == Some(true) <==> l.taken == 1))
  }

  lemma UndisturbedStep(l: Life, m: Move)
    requires Undisturbed(l) && !m.Reclaim?
    ensures Undisturbed(Moved(l, m))
  {
    if (m.Record? || m.Refuse?) && m.worker in l.flights {
      assert l.flights - {m.worker} == map[];
    }
  }

  /** Without a reclaim the relay takes a message at most once, a sent row was taken, and a row keeps its body
      exactly as long as it is not final. */
  lemma {:induction false} UndisturbedLife(recipient: string, moves: seq<Move>)
    requires Reclaim !in moves
    ensures Undisturbed(Lived(NewLife(recipient), moves))
  {
    if moves != [] {
      UndisturbedLife(recipient, moves[..|moves| - 1]);
      UndisturbedStep(Lived(NewLife(recipient), moves[..|moves| - 1]), moves[|moves| - 1]);
    }
  }

  /** A slow worker that fails after another succeeded has the message sent again without its body. */
  lemma SlowFailureRetriesWithoutBody(recipient: string)
    ensures
      var both := Lived(NewLife(recipient), [Claim(0), Reclaim, Claim(1)]);
      var sent := Moved(Moved(both, Answer(0, true)), Record(0));
      var again := Moved(Moved(sent, Answer(1, false)), Record(1));
      sent.row.status.Sent? && again.row.status.Retry? && !again.row.body
  {
    LivedThree(NewLife(recipient), [], Claim(0), Reclaim, Claim(1));
    assert [] + [Claim(0), Reclaim, Claim(1)] == [Claim(0), Reclaim, Claim(1)];
  }
}
