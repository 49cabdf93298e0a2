/**
  The capped replay buffer behind the event stream. Publishers append at the front and trim afterwards, as two
  separate steps that may interleave with other publishers' and with readers; the history keeps everything.
*/
module Replay {
  import opened Base

  type Payload = string
  type EventId = string
  datatype Event = Event(id: EventId, body: string)
  type Decoder = Payload -> Option<Event>

  const BUFFER_MAX_LEN := 500

  function Min(a: nat, b: nat): nat {
    if a <= b then a else b
  }

  // ---------------------------------------------------------------- full history

  /** The newest entries a buffer of the capped size owes its readers, oldest first. */
  function Newest(history: seq<Payload>): seq<Payload> {
    history[|history| - Min(|history|, BUFFER_MAX_LEN)..]
  }

  /** The events in a list of payloads; what does not decode is skipped. */
  function Events(decode: Decoder, raw: seq<Payload>): seq<Event> {
    if raw == [] then []
    else (if decode(raw[0]).Some? then [decode(raw[0]).value] else []) + Events(decode, raw[1..])
  }

  predicate Names(decode: Decoder, raw: Payload, id: EventId) {
    decode(raw).Some? && decode(raw).value.id == id
  }

  /** No two decodable events share an id. */
  predicate DistinctIds(decode: Decoder, raw: seq<Payload>) {
    forall i, j | 0 <= i < j < |raw| && decode(raw[j]).Some? :: !Names(decode, raw[i], decode(raw[j]).value.id)
  }

  /** Where a reader resumes: after the first entry with its id, or at the start. */
  function ResumeAt(decode: Decoder, raw: seq<Payload>, last: Option<EventId>): (r: nat)
    ensures r <= |raw|
    ensures r > 0 ==> last.Some? && Names(decode, raw[r - 1], last.value)
    ensures last.Some? ==> forall i | 0 <= i < (if r == 0 then |raw| else r - 1) :: !Names(decode, raw[i], last.value)
  {
    if last.None? || raw == [] then 0
    else if Names(decode, raw[0], last.value) then 1
    else
      var rest := ResumeAt(decode, raw[1..], last);
      assert forall i | 1 <= i < |raw| :: raw[i] == raw[1..][i - 1];
      if rest == 0 then 0 else rest + 1
  }

  /** What a reader must be sent, decided on the full history. */
  function Owed(decode: Decoder, history: seq<Payload>, last: Option<EventId>): seq<Event> {
    var newest := Newest(history);
    Events(decode, newest[ResumeAt(decode, newest, last)..])
  }

  /** The place in the full history from which a reader is sent what follows. */
  function Start(decode: Decoder, history: seq<Payload>, last: Option<EventId>): (r: nat)
    ensures r <= |history|
  {
    |history| - Min(|history|, BUFFER_MAX_LEN) + ResumeAt(decode, Newest(history), last)
  }

  /** A reader naming one of the newest entries is owed exactly the later ones, in publish order. */
  lemma {:induction false} KnownIdOwesTheLater(decode: Decoder, history: seq<Payload>, j: nat)
    requires |history| - Min(|history|, BUFFER_MAX_LEN) <= j < |history|
    requires decode(history[j]).Some? && DistinctIds(decode, history)
    ensures Owed(decode, history, Some(decode(history[j]).value.id)) == Events(decode, history[j + 1..])
  {
    var from := |history| - Min(|history|, BUFFER_MAX_LEN);
    var newest, id := Newest(history), decode(history[j]).value.id;
    assert newest == history[from..] && Names(decode, history[j], id);
    OnlyOneNamed(decode, history, j, from);
    hide DistinctIds, Names, Newest, Events;
    assert newest[j - from] == history[j];
    assert ResumeAt(decode, newest, Some(id)) == j - from + 1;
    assert newest[j - from + 1..] == history[j + 1..];
  }

  lemma {:induction false} OnlyOneNamed(decode: Decoder, history: seq<Payload>, j: nat, from: nat)
    requires from <= j < |history| && decode(history[j]).Some? && DistinctIds(decode, history)
    ensures forall i | 0 <= i < |history| - from && i != j - from ::
              !Names(decode, history[from..][i], decode(history[j]).value.id)
  {
    var id := decode(history[j]).value.id;
    forall i | 0 <= i < |history| - from && i != j - from
      ensures !Names(decode, history[from..][i], id)
    {
      var k := from + i;
      assert history[from..][i] == history[k];
      if k < j {
        assert !Names(decode, history[k], id);
      } else if decode(history[k]).Some? {
        assert !Names(decode, history[j], decode(history[k]).value.id);
      }
    }
  }

  /** A reader without an id, or naming none of the newest entries, is owed all of those. */
  lemma {:induction false} UnknownIdOwesTheNewest(decode: Decoder, history: seq<Payload>, last: Option<EventId>)
    requires last.Some? ==>
      forall i | |history| - Min(|history|, BUFFER_MAX_LEN) <= i < |history| :: !Names(decode, history[i], last.value)
    ensures Owed(decode, history, last) == Events(decode, Newest(history))
  {
    var from, newest := |history| - Min(|history|, BUFFER_MAX_LEN), Newest(history);
    assert forall i | 0 <= i < |newest| :: newest[i] == history[from + i];
    assert newest[0..] == newest;
  }

  // ---------------------------------------------------------------- the buffer

  function Reversed(s: seq<Payload>): (r: seq<Payload>)
    ensures |r| == |s| && forall i | 0 <= i < |s| :: r[i] == s[|s| - 1 - i]
  {
    if s == [] then [] else Reversed(s[1..]) + [s[0]]
  }

  /** A list that stands for the history: its newest entries, newest first, and never fewer than owed. */
  predicate Retains(items: seq<Payload>, history: seq<Payload>) {
    && Min(|history|, BUFFER_MAX_LEN) <= |items| <= |history|
    && forall i | 0 <= i < |items| :: items[i] == history[|history| - 1 - i]
  }

  class Buffer {
    // newest first
    var items: seq<Payload>
    ghost var history: seq<Payload>

    ghost predicate Valid()
      reads this
    {
      Retains(items, history)
    }

    constructor ()
      ensures Valid() && history == []
    {
      items, history := [], [];
    }

    /** A publisher's first step. */
    method Push(payload: Payload)
      requires Valid()
      modifies this
      ensures Valid() && history == old(history) + [payload]
      ensures items == [payload] + old(items)
    {
      items := [payload] + items;
      history := history + [payload];
    }

    /** A publisher's second step: nothing a reader is owed is cut off. */
    method Trim()
      requires Valid()
      modifies this`items
      ensures Valid() && |items| == if |history| < 500 then |history| else 500
    {
      if |items| > BUFFER_MAX_LEN {
        items := items[..BUFFER_MAX_LEN];
      }
    }

    /** The replay half of a subscription, at any moment between the publishers' steps. */
    method Replay(decode: Decoder, last: Option<EventId>) returns (sent: seq<Event>)
      requires Valid()
      ensures sent == Owed(decode, history, last)
    {
      var raw := if |items| > BUFFER_MAX_LEN then items[..BUFFER_MAX_LEN] else items;
      var chronological := Reversed(raw);
      assert chronological == Newest(history);
      var replayFrom := FindResume(decode, chronological, last);
      sent := Send(decode, chronological[replayFrom..]);
    }
  }

  /** The scan for the reader's last event stops at its first match. */
  method FindResume(decode: Decoder, chronological: seq<Payload>, last: Option<EventId>) returns (replayFrom: nat)
    ensures replayFrom == ResumeAt(decode, chronological, last)
  {
    replayFrom := 0;
    if last.Some? {
      var index := 0;
      while index < |chronological|
        invariant 0 <= index <= |chronological| && replayFrom == 0
        invariant forall i | 0 <= i < index :: !Names(decode, chronological[i], last.value)
      {
        var event := decode(chronological[index]);
        if event.Some? && event.value.id == last.value {
          replayFrom := index + 1;
          break;
        }
        index := index + 1;
      }
    }
  }

  /** The entries that decode are sent in order, the others skipped. */
  method Send(decode: Decoder, raw: seq<Payload>) returns (sent: seq<Event>)
    ensures sent == Events(decode, raw)
  {
    sent := [];
    assert raw[0..] == raw;
    for i := 0 to |raw|
      invariant sent + Events(decode, raw[i..]) == Events(decode, raw)
    {
      var event := decode(raw[i]);
      NextEvent(decode, raw, i);
      hide Events;
      ghost var rest := Events(decode, raw[i + 1..]);
      if event.Some? {
        assert (sent + [event.value]) + rest == sent + ([event.value] + rest);
        sent := sent + [event.value];
      } else {
        assert [] + rest == rest;
      }
    }
    assert raw[|raw|..] == [];
  }

  lemma {:induction false} NextEvent(decode: Decoder, raw: seq<Payload>, i: nat)
    requires i < |raw|
    ensures Events(decode, raw[i..])
         == (if decode(raw[i]).Some? then [decode(raw[i]).value] else []) + Events(decode, raw[i + 1..])
  {
    assert raw[i..][1..] == raw[i + 1..];
  }

  // ---------------------------------------------------------------- any interleaving of publishers

  /** One store operation of some publisher. */
  datatype Op = Pushed(payload: Payload) | Trimmed

  function Capped(items: seq<Payload>): seq<Payload> {
    if |items| > BUFFER_MAX_LEN then items[..BUFFER_MAX_LEN] else items
  }

  /** The stored list after operations of any number of publishers, in the order in which they hit the store. */
  function Stored(ops: seq<Op>): seq<Payload> {
    if ops == [] then []
    else
      var before := Stored(ops[..|ops| - 1]);
      match ops[|ops| - 1]
      case Pushed(payload) => [payload] + before
      case Trimmed => Capped(before)
  }

  function Published(ops: seq<Op>): seq<Payload> {
    if ops == [] then []
    else
      var before := Published(ops[..|ops| - 1]);
      match ops[|ops| - 1]
      case Pushed(payload) => before + [payload]
      case Trimmed => before
  }

  /** What the replay half of a subscription sends from a stored list. */
  function Served(decode: Decoder, items: seq<Payload>, last: Option<EventId>): seq<Event> {
    var chronological := Reversed(Capped(items));
    Events(decode, chronological[ResumeAt(decode, chronological, last)..])
  }

  lemma {:induction false} EveryInterleavingRetains(ops: seq<Op>)
    ensures Retains(Stored(ops), Published(ops))
  {
    if ops != [] {
      EveryInterleavingRetains(ops[..|ops| - 1]);
    }
  }

  /** Whatever the publishers' interleaving, the stored list serves what the full history owes. */
  lemma {:induction false} StoredServesOwed(decode: Decoder, ops: seq<Op>, last: Option<EventId>)
    ensures Served(decode, Stored(ops), last) == Owed(decode, Published(ops), last)
    ensures Owed(decode, Published(ops), last) == Events(decode, Published(ops)[Start(decode, Published(ops), last)..])
  {
    EveryInterleavingRetains(ops);
    var history := Published(ops);
    assert Reversed(Capped(Stored(ops))) == Newest(history);
    assert Newest(history)[ResumeAt(decode, Newest(history), last)..] == history[Start(decode, history, last)..];
  }

  lemma {:induction false} PublishedLater(ops: seq<Op>, more: seq<Op>)
    ensures Published(ops + more) == Published(ops) + Published(more)
  {
    if more == [] {
      assert ops + more == ops;
    } else {
      assert (ops + more)[..|ops + more| - 1] == ops + more[..|more| - 1];
      PublishedLater(ops, more[..|more| - 1]);
    }
  }

  lemma {:induction false} EventsOfParts(decode: Decoder, raw: seq<Payload>, rest: seq<Payload>)
    ensures Events(decode, raw + rest) == Events(decode, raw) + Events(decode, rest)
  {
    if raw == [] {
      assert raw + rest == rest;
    } else {
      assert (raw + rest)[1..] == raw[1..] + rest && (raw + rest)[0] == raw[0];
      EventsOfParts(decode, raw[1..], rest);
      var head := if decode(raw[0]).Some? then [decode(raw[0]).value] else [];
      assert head + (Events(decode, raw[1..]) + Events(decode, rest))
             == (head + Events(decode, raw[1..])) + Events(decode, rest);
    }
  }

  lemma {:induction false} NothingDecodes(decode: Decoder, raw: seq<Payload>)
    requires forall k | 0 <= k < |raw| :: decode(raw[k]).None?
    ensures Events(decode, raw) == []
  {
    if raw != [] {
      NothingDecodes(decode, raw[1..]);
    }
  }

  /** The later of the first entry after a reader's last event and the first one the buffer still owes. */
  function Cut(history: seq<Payload>, j: nat): (r: nat)
    requires j < |history|
    ensures j < r <= |history|
  {
    if |history| - Min(|history|, BUFFER_MAX_LEN) <= j then j + 1 else |history| - Min(|history|, BUFFER_MAX_LEN)
  }

  /** A reader is sent what follows its last event, or what follows the cut if that event has left the buffer. */
  lemma {:induction false} ServedFromCut(decode: Decoder, history: seq<Payload>, j: nat)
    requires j < |history| && decode(history[j]).Some? && DistinctIds(decode, history)
    ensures Owed(decode, history, Some(decode(history[j]).value.id)) == Events(decode, history[Cut(history, j)..])
  {
    var from := |history| - Min(|history|, BUFFER_MAX_LEN);
    if from <= j {
      KnownIdOwesTheLater(decode, history, j);
    } else {
      var id := decode(history[j]).value.id;
      forall i | from <= i < |history|
        ensures !Names(decode, history[i], id)
      {
        if decode(history[i]).Some? {
          assert !Names(decode, history[j], decode(history[i]).value.id);
        }
      }
      UnknownIdOwesTheNewest(decode, history, Some(id));
    }
  }

  /** A reader that reconnects with the id of the last event it got, while publishers go on in any interleaving, gets
      every event once and in order, apart from those that have left the buffer in between. */
  lemma {:induction false} ReconnectResumes(decode: Decoder, ops: seq<Op>, more: seq<Op>, last: Option<EventId>, j: nat)
    requires DistinctIds(decode, Published(ops + more))
    requires Start(decode, Published(ops), last) <= j < |Published(ops)| && decode(Published(ops)[j]).Some?
    requires forall k | j < k < |Published(ops)| :: decode(Published(ops)[k]).None?
    ensures Published(ops) <= Published(ops + more)
    ensures var all, id := Published(ops + more), decode(Published(ops)[j]).value.id;
            var first, second := Served(decode, Stored(ops), last), Served(decode, Stored(ops + more), Some(id));
            && first != [] && first[|first| - 1].id == id
            && first + Events(decode, all[j + 1..Cut(all, j)]) + second
            == Events(decode, all[Start(decode, Published(ops), last)..])
  {
    hide Stored, Published, Served, Owed, Start, Events, Names, Cut, DistinctIds;
    PublishedLater(ops, more);
    StoredServesOwed(decode, ops, last);
    StoredServesOwed(decode, ops + more, Some(decode(Published(ops)[j]).value.id));
    ServedFromCut(decode, Published(ops + more), j);
    PartsJoin(decode, Published(ops), Published(ops + more), Start(decode, Published(ops), last), j);
  }

  lemma {:induction false} PartsJoin(decode: Decoder, before: seq<Payload>, all: seq<Payload>, from: nat, j: nat)
    requires before <= all && from <= j < |before| && decode(before[j]).Some?
    requires forall k | j < k < |before| :: decode(before[k]).None?
    ensures var first := Events(decode, before[from..]);
            && first != [] && first[|first| - 1] == decode(before[j]).value
            && first + Events(decode, all[j + 1..Cut(all, j)]) + Events(decode, all[Cut(all, j)..])
            == Events(decode, all[from..])
  {
    ReadUpTo(decode, before, from, j);
    EventsOfThreeParts(decode, all, from, j + 1, Cut(all, j));
    assert all[from..j + 1] == before[from..j + 1];
  }

  lemma {:induction false} EventsOfThreeParts(decode: Decoder, all: seq<Payload>, from: nat, mid: nat, cut: nat)
    requires from <= mid <= cut <= |all|
    ensures Events(decode, all[from..mid]) + Events(decode, all[mid..cut]) + Events(decode, all[cut..])
         == Events(decode, all[from..])
  {
    hide Events;
    assert all[from..] == (all[from..mid] + all[mid..cut]) + all[cut..];
    EventsOfParts(decode, all[from..mid] + all[mid..cut], all[cut..]);
    EventsOfParts(decode, all[from..mid], all[mid..cut]);
  }

  /** If nothing decodes behind `j`, the events from `from` on end with that at `j`. */
  lemma {:induction false} ReadUpTo(decode: Decoder, history: seq<Payload>, from: nat, j: nat)
    requires from <= j < |history| && decode(history[j]).Some?
    requires forall k | j < k < |history| :: decode(history[k]).None?
    ensures Events(decode, history[from..]) == Events(decode, history[from..j + 1])
    ensures var events := Events(decode, history[from..]);
            events != [] && events[|events| - 1] == decode(history[j]).value
  {
    assert history[from..] == history[from..j + 1] + history[j + 1..];
    EventsOfParts(decode, history[from..j + 1], history[j + 1..]);
    NothingDecodes(decode, history[j + 1..]);
    assert history[from..j + 1] == history[from..j] + [history[j]];
    EventsOfParts(decode, history[from..j], [history[j]]);
    assert Events(decode, [history[j]]) == [decode(history[j]).value];
  }
}
