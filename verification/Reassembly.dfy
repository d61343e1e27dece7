// Putting chunked chat messages back together.
//
// What the reassembler holds and returns is characterised by the messages it was given: the chunks
// of an id since its buffer was last started. The object keeps those messages as ghost history.
module Reassembly {
  import opened Options

  type Kind = string
  type CommitId = string
  type Event = string

  const CHAT: Kind := "Chat"
  const NO_COMMIT: CommitId := "0000000000000000000000000000000000000000"

  datatype Msg = Msg(
    sender: string,
    content: seq<string>,
    kind: Kind,
    commitId: CommitId,
    nostrEvent: Option<Event>,
    messageId: Option<string>,
    sequenceNum: Option<nat>,
    totalChunks: Option<nat>)

  datatype Entry = Entry(total: nat, received: nat, chunks: seq<Option<Msg>>)

  predicate IsChunk(m: Msg)
  {
    m.messageId.Some? && m.sequenceNum.Some? && m.totalChunks.Some?
  }

  // A chunk of the message id.
  predicate Of(m: Msg, id: string)
  {
    IsChunk(m) && m.messageId.value == id
  }

  type Chunk = m: Msg | IsChunk(m) witness Msg("", [], CHAT, NO_COMMIT, None, Some(""), Some(0), Some(0))

  function Num(m: Chunk): nat { m.sequenceNum.value }
  function Total(m: Chunk): nat { m.totalChunks.value }

  // ---------------------------------------------------------------------------------------------
  // What a list of chunks amounts to

  // The chunk with number k that came first.
  function First(h: seq<Chunk>, k: nat): Option<Msg>
  {
    if h == [] then None else
      var n := |h| - 1;
      var before := First(h[..n], k);
      if before.Some? then before else if Num(h[n]) == k then Some(h[n]) else None
  }

  function Slots(h: seq<Chunk>, total: nat): seq<Option<Msg>>
  {
    seq(total, k requires 0 <= k => First(h, k))
  }

  predicate Complete(h: seq<Chunk>, total: nat)
  {
    forall k: nat | k < total :: First(h, k).Some?
  }

  function Filled(slots: seq<Option<Msg>>): nat
  {
    if slots == [] then 0 else
      Filled(slots[..|slots| - 1]) + if slots[|slots| - 1].Some? then 1 else 0
  }

  function Line(m: Msg): string
  {
    if m.content == [] then "" else m.content[0]
  }

  function Text(slots: seq<Option<Msg>>): string
  {
    if slots == [] then "" else
      var s := slots[|slots| - 1];
      Text(slots[..|slots| - 1]) + if s.Some? then Line(s.value) else ""
  }

  // The whole message: the text of all chunks, and the rest of chunk 0.
  function Whole(head: Msg, text: string): Msg
  {
    Msg(head.sender, [text], head.kind, head.commitId, head.nostrEvent, None, None, None)
  }

  // What a call comes to. Joining a chunk that has no line of content is a panic.
  datatype Delivery = Nothing | Message(msg: Msg) | Panic

  predicate HaveText(slots: seq<Option<Msg>>)
  {
    forall k | 0 <= k < |slots| && slots[k].Some? :: slots[k].value.content != []
  }

  function Join(head: Msg, slots: seq<Option<Msg>>): Delivery
  {
    if HaveText(slots) then Message(Whole(head, Text(slots))) else Panic
  }

  // The last chunk of h ends the buffer: it disagrees on the total, or it is the last one missing.
  predicate Ends(h: seq<Chunk>)
    requires h != []
  {
    var last := h[|h| - 1];
    Total(h[0]) != Total(last) || Finishes(h)
  }

  predicate Finishes(h: seq<Chunk>)
    requires h != []
  {
    var last := h[|h| - 1];
    Total(h[0]) == Total(last) && Num(last) < Total(last) && Complete(h, Total(last))
  }

  // The chunks of id since its buffer was started.
  function Epoch(history: seq<Msg>, id: string): seq<Chunk>
  {
    if history == [] then [] else
      var n := |history| - 1;
      var h := Epoch(history[..n], id);
      if !Of(history[n], id) then h
      else if Ends(h + [history[n]]) then []
      else h + [history[n]]
  }

  function EntryOf(h: seq<Chunk>): Entry
    requires h != []
  {
    var slots := Slots(h, Total(h[0]));
    Entry(Total(h[0]), Filled(slots), slots)
  }

  // What the reassembler makes of m after `history`.
  function Reassembled(history: seq<Msg>, m: Msg): Delivery
  {
    if !IsChunk(m) then Nothing else
      var h := Epoch(history, m.messageId.value) + [m];
      if Finishes(h) then Join(First(h, 0).value, Slots(h, Total(m))) else Nothing
  }

  // ---------------------------------------------------------------------------------------------
  // The table

  lemma {:induction false} FilledBounds(slots: seq<Option<Msg>>)
    ensures Filled(slots) <= |slots|
    ensures Filled(slots) == |slots| <==> forall k | 0 <= k < |slots| :: slots[k].Some?
  {
    if slots != [] {
      var init := slots[..|slots| - 1];
      FilledBounds(init);
      assert forall k | 0 <= k < |init| :: init[k] == slots[k];
    }
  }

  lemma FilledUpdate(slots: seq<Option<Msg>>, k: nat, m: Msg)
    requires k < |slots| && slots[k].None?
    ensures Filled(slots[k := Some(m)]) == Filled(slots) + 1
  {
    var n, after := |slots| - 1, slots[k := Some(m)];
    if k < n {
      FilledUpdate(slots[..n], k, m);
      assert after[..n] == slots[..n][k := Some(m)];
    } else {
      assert after[..n] == slots[..n];
    }
  }

  function Empty(total: nat): seq<Option<Msg>>
  {
    seq(total, _ => None)
  }

  lemma FilledNone(total: nat)
    ensures Filled(Empty(total)) == 0
  {
    if total > 0 {
      FilledNone(total - 1);
      assert Empty(total)[..total - 1] == Empty(total - 1);
    }
  }

  // What comes last fills its slot only if that was free.
  lemma {:induction false} SlotsAppend(h: seq<Chunk>, m: Chunk, total: nat)
    ensures Slots(h + [m], total)
         == if Num(m) < total && First(h, Num(m)).None? then Slots(h, total)[Num(m) := Some(m)] else Slots(h, total)
  {
  }

  lemma {:induction false} FirstIsChunk(h: seq<Chunk>, k: nat)
    ensures First(h, k).Some? ==> First(h, k).value in h && IsChunk(First(h, k).value) && Num(First(h, k).value) == k
    ensures First(h, k).None? ==> forall i | 0 <= i < |h| :: Num(h[i]) != k
  {
    if h != [] {
      FirstIsChunk(h[..|h| - 1], k);
    }
  }

  // A chunk with a number out of range completes nothing.
  lemma OutOfRange(h: seq<Chunk>, m: Chunk, total: nat)
    requires Num(m) >= total > 0 && (h == [] || !Complete(h, total))
    ensures !Complete(h + [m], total)
  {
    SlotsAppend(h, m, total);
    var k: nat := 0;
    if h != [] {
      k :| k < total && First(h, k).None?;
    }
    assert Slots(h + [m], total)[k] == Slots(h, total)[k] == None;
  }

  // The chunks of a buffer are chunks of its id that came in and agree on the total.
  lemma {:induction false} EpochMembers(history: seq<Msg>, id: string)
    ensures var h := Epoch(history, id);
            forall x <- h :: Of(x, id) && x in history && Total(x) == Total(h[0])
  {
    if history != [] {
      var n := |history| - 1;
      EpochMembers(history[..n], id);
      var h, m := Epoch(history[..n], id), history[n];
      assert m in history && forall x <- history[..n] :: x in history;
      if Of(m, id) && !Ends(h + [m]) {
        var h' := h + [m];
        assert Total(h'[0]) == Total(m);
        forall x <- h'
          ensures Of(x, id) && x in history && Total(x) == Total(h'[0])
        {
          assert x in h || x == m;
        }
      }
    }
  }

  // They do not yet complete it.
  lemma {:induction false} EpochIsOpen(history: seq<Msg>, id: string)
    ensures var h := Epoch(history, id); h != [] && Total(h[0]) > 0 ==> !Complete(h, Total(h[0]))
  {
    if history != [] {
      var n := |history| - 1;
      EpochIsOpen(history[..n], id);
      var h, m := Epoch(history[..n], id), history[n];
      if Of(m, id) && !Ends(h + [m]) && 0 < Total(m) <= Num(m) {
        OutOfRange(h, m, Total(m));
      }
    }
  }

  // In every reachable table each entry has as many slots as its total, counts the filled ones,
  // and is not full unless the total is 0.
  lemma {:induction false} EntriesAreConsistent(history: seq<Msg>, id: string)
    requires Epoch(history, id) != []
    ensures var e := EntryOf(Epoch(history, id));
            && |e.chunks| == e.total
            && e.received == Filled(e.chunks)
            && (e.received < e.total || e.total == 0)
            && forall k | 0 <= k < e.total && e.chunks[k].Some? ::
                 var c := e.chunks[k].value;
                 Of(c, id) && Num(c) == k && Total(c) == e.total && c in history
  {
    var h := Epoch(history, id);
    var e := EntryOf(h);
    EpochMembers(history, id);
    EpochIsOpen(history, id);
    FilledBounds(e.chunks);
    if e.received == e.total {
      forall k: nat | k < e.total
        ensures First(h, k).Some?
      {
        assert e.chunks[k].Some?;
      }
    }
    forall k: nat | k < e.total && e.chunks[k].Some?
      ensures var c := e.chunks[k].value; Of(c, id) && Num(c) == k && Total(c) == e.total && c in history
    {
      FirstIsChunk(h, k);
    }
  }

  // ---------------------------------------------------------------------------------------------
  // The reassembler

  ghost predicate Matches(buffer: map<string, Entry>, history: seq<Msg>)
  {
    forall id: string ::
      && (id in buffer <==> Epoch(history, id) != [])
      && (id in buffer ==> buffer[id] == EntryOf(Epoch(history, id)))
  }

  // A message touches no entry but its own.
  lemma {:induction false} OthersUntouched(history: seq<Msg>, m: Msg, id: string)
    ensures !Of(m, id) ==> Epoch(history + [m], id) == Epoch(history, id)
    ensures Of(m, id) ==> Epoch(history + [m], id) == var h := Epoch(history, id) + [m]; if Ends(h) then [] else h
  {
  }

  lemma {:induction false} MatchesAfter(buffer: map<string, Entry>, history: seq<Msg>, m: Chunk,
                                        buffer': map<string, Entry>)
    requires Matches(buffer, history)
    requires var id := m.messageId.value;
             var h := Epoch(history, id) + [m];
             buffer' == if Ends(h) then buffer - {id} else buffer[id := EntryOf(h)]
    ensures Matches(buffer', history + [m])
  {
  }

  // The entry once m is put in its slot, if that is free.
  function Received(e: Entry, m: Chunk): Entry
  {
    if Num(m) < |e.chunks| && e.chunks[Num(m)].None?
    then Entry(e.total, e.received + 1, e.chunks[Num(m) := Some(m)])
    else e
  }

  lemma OtherMessage(buffer: map<string, Entry>, history: seq<Msg>, m: Msg)
    requires Matches(buffer, history) && !IsChunk(m)
    ensures Matches(buffer, history + [m])
  {
    forall id: string
      ensures Epoch(history + [m], id) == Epoch(history, id)
    {
      OthersUntouched(history, m, id);
    }
  }

  // What the entry of m's id is once its slot is looked at.
  lemma {:induction false} EntryAfter(history: seq<Msg>, m: Chunk, e: Entry)
    requires var h := Epoch(history, m.messageId.value);
             e == if h == [] then Entry(Total(m), 0, Empty(Total(m))) else EntryOf(h)
    requires e.total == Total(m)
    ensures var h' := Epoch(history, m.messageId.value) + [m];
            && |e.chunks| == e.total
            && EntryOf(h') == Received(e, m)
  {
    var h := Epoch(history, m.messageId.value);
    if h == [] {
      EntryStarts(m);
    } else {
      EntryGrows(h, m);
    }
  }

  lemma EntryStarts(m: Chunk)
    ensures EntryOf([m]) == Received(Entry(Total(m), 0, Empty(Total(m))), m)
  {
    FilledNone(Total(m));
    assert Slots([], Total(m)) == Empty(Total(m));
    assert [] + [m] == [m];
    SlotsAppend([], m, Total(m));
    if Num(m) < Total(m) {
      FilledUpdate(Slots([], Total(m)), Num(m), m);
    }
  }

  lemma EntryGrows(h: seq<Chunk>, m: Chunk)
    requires h != [] && Total(h[0]) == Total(m)
    ensures EntryOf(h + [m]) == Received(EntryOf(h), m)
  {
    SlotsAppend(h, m, Total(m));
    if Num(m) < Total(m) && First(h, Num(m)).None? {
      FilledUpdate(Slots(h, Total(m)), Num(m), m);
    }
  }

  // The count says whether all slots are filled.
  lemma CountIsComplete(h: seq<Chunk>)
    requires h != []
    ensures EntryOf(h).received == Total(h[0]) <==> Complete(h, Total(h[0]))
  {
    var slots := Slots(h, Total(h[0]));
    FilledBounds(slots);
    if Filled(slots) == Total(h[0]) {
      forall k: nat | k < Total(h[0])
        ensures First(h, k).Some?
      {
        assert slots[k].Some?;
      }
    }
  }

  // What a chunk that agrees on the total comes to, told from its entry.
  lemma {:induction false} EntryTells(history: seq<Msg>, m: Chunk, e: Entry)
    requires var h := Epoch(history, m.messageId.value);
             e == if h == [] then Entry(Total(m), 0, Empty(Total(m))) else EntryOf(h)
    requires e.total == Total(m)
    ensures |e.chunks| == e.total
    ensures var h := Epoch(history, m.messageId.value) + [m];
            var e' := Received(e, m);
            && EntryOf(h) == e'
            && (Ends(h) <==> Num(m) < e.total && e'.received == e.total)
            && Reassembled(history, m)
               == if Num(m) < e.total && e'.received == e.total
                  then Join(First(h, 0).value, e'.chunks) else Nothing
  {
    EpochMembers(history, m.messageId.value);
    EpochIsOpen(history, m.messageId.value);
    EntryAfter(history, m, e);
    CountIsComplete(Epoch(history, m.messageId.value) + [m]);
  }

  // Full slots hold what came in.
  lemma {:induction false} FullSlots(history: seq<Msg>, m: Chunk, slots: seq<Option<Msg>>)
    requires Finishes(Epoch(history, m.messageId.value) + [m])
    requires slots == Slots(Epoch(history, m.messageId.value) + [m], Total(m))
    ensures slots != [] && slots[0] == First(Epoch(history, m.messageId.value) + [m], 0)
    ensures forall k | 0 <= k < |slots| :: slots[k].Some?
  {
  }

  function Looked(buffer: map<string, Entry>, m: Chunk): Entry
  {
    if m.messageId.value in buffer then buffer[m.messageId.value] else Entry(Total(m), 0, Empty(Total(m)))
  }

  predicate Drops(e: Entry, m: Chunk)
    requires e.total == Total(m) ==> |e.chunks| == e.total
  {
    e.total != Total(m) || (Num(m) < e.total && Received(e, m).received == e.total)
  }

  // What a chunk does to the table keeps it the table of all messages so far.
  lemma TableMatches(buffer: map<string, Entry>, history: seq<Msg>, m: Chunk)
    requires Matches(buffer, history)
    ensures var e := Looked(buffer, m);
            && (e.total == Total(m) ==> |e.chunks| == e.total)
            && Matches(if Drops(e, m) then buffer - {m.messageId.value}
                       else buffer[m.messageId.value := Received(e, m)],
                       history + [m])
  {
    EpochMembers(history, m.messageId.value);
    EpochIsOpen(history, m.messageId.value);
    var e := Looked(buffer, m);
    if e.total == Total(m) {
      EntryTells(history, m, e);
    }
    MatchesAfter(buffer, history, m,
                 if Drops(e, m) then buffer - {m.messageId.value} else buffer[m.messageId.value := Received(e, m)]);
  }

  lemma TakenOut(buffer: map<string, Entry>, id: string, e: Entry)
    ensures buffer[id := e] - {id} == buffer - {id}
  {
  }

  // ---------------------------------------------------------------------------------------------
  // Chunks with a total of 0

  // A buffer that starts with a total of 0 never comes to a message; it ends with the first chunk
  // of its id that has another total, which is dropped with it.
  lemma {:induction false} ZeroTotalStaysIff(history: seq<Msg>, id: string, m: Msg)
    requires Epoch(history, id) != [] && Total(Epoch(history, id)[0]) == 0
    ensures Epoch(history + [m], id) != [] <==> !(Of(m, id) && m.totalChunks.value != 0)
    ensures Of(m, id) ==> Reassembled(history, m) == Nothing
  {
    OthersUntouched(history, m, id);
    EpochMembers(history, id);
  }

  // One such chunk starts a buffer that stays; a chunk of the same id with a total of 3 is lost.
  lemma {:induction false} ZeroTotalInstance(zero: Chunk, three: Chunk, id: string)
    requires Of(zero, id) && Total(zero) == 0 && Of(three, id) && Total(three) == 3
    ensures Epoch([zero], id) == [zero] && Epoch([zero, zero], id) == [zero, zero]
    ensures Epoch([zero, three], id) == []
  {
    OthersUntouched([], zero, id);
    assert [] + [zero] == [zero] && [zero] + [zero] == [zero, zero] && [zero] + [three] == [zero, three];
    OthersUntouched([zero], zero, id);
    OthersUntouched([zero], three, id);
  }

  class MessageReassembler {
    const user: string
    var buffer: map<string, Entry>
    ghost var history: seq<Msg>

    ghost predicate Valid()
      reads this
    {
      Matches(buffer, history)
    }

    constructor (user: string)
      ensures Valid() && history == [] && this.user == user
    {
      this.user, buffer, history := user, map[], [];
    }

    // After a panic there are no further calls; the full entry is still in the table.
    method AddChunkAndReassemble(m: Msg) returns (r: Delivery)
      requires Valid()
      modifies this
      ensures r == Reassembled(old(history), m)
      ensures !r.Panic? ==> Valid() && history == old(history) + [m]
      ensures r.Panic? ==> IsChunk(m) && buffer == old(buffer)[m.messageId.value := Received(old(Looked(buffer, m)), m)]
    {
      if m.messageId.None? || m.sequenceNum.None? || m.totalChunks.None? {
        OtherMessage(buffer, history, m);
        history := history + [m];
        return Nothing;
      }
      r := AddChunk(m);
    }

    method AddChunk(m: Chunk) returns (r: Delivery)
      requires Valid()
      modifies this
      ensures r == Reassembled(old(history), m)
      ensures !r.Panic? ==> Valid() && history == old(history) + [m]
      ensures r.Panic? ==> buffer == old(buffer)[m.messageId.value := Received(old(Looked(buffer, m)), m)]
    {
      ghost var before, was, e := history, buffer, Looked(buffer, m);
      TableMatches(buffer, before, m);
      if e.total == Total(m) {
        EntryTells(before, m, e);
      }
      var slots := Store(m);
      r := Nothing;
      if slots.Some? {
        FullSlots(before, m, slots.value);
        r := Assemble(slots.value);
        if r.Panic? {
          return;
        }
        buffer := buffer - {m.messageId.value};
        TakenOut(was, m.messageId.value, Received(e, m));
      }
      history := history + [m];
    }

    // Puts a chunk into its slot, and hands the slots out once all are full.
    method Store(m: Chunk) returns (full: Option<seq<Option<Msg>>>)
      requires Looked(buffer, m).total == Total(m) ==> |Looked(buffer, m).chunks| == Total(m)
      modifies this`buffer
      ensures var id, e := m.messageId.value, Looked(old(buffer), m);
              && buffer == (if e.total != Total(m) then old(buffer) - {id} else old(buffer)[id := Received(e, m)])
              && full == if e.total == Total(m) && Drops(e, m) then Some(Received(e, m).chunks) else None
    {
      var id, num, total := m.messageId.value, m.sequenceNum.value, m.totalChunks.value;
      full := None;
      if id !in buffer {
        buffer := buffer[id := Entry(total, 0, Empty(total))];
      }
      var e := buffer[id];
      if e.total != total {
        buffer := buffer - {id};
        return;
      }
      if num < total {
        if e.chunks[num].None? {
          e := Entry(e.total, e.received + 1, e.chunks[num := Some(m)]);
          buffer := buffer[id := e];
        }
      } else {
        return;
      }
      if e.received == total {
        full := Some(e.chunks);
      }
    }

    // Joins full slots. A free slot would end it, but there is none.
    method Assemble(chunks: seq<Option<Msg>>) returns (r: Delivery)
      requires chunks != [] && forall k | 0 <= k < |chunks| :: chunks[k].Some?
      ensures r == Join(chunks[0].value, chunks)
    {
      var full, whole := "", Msg(user, ["", ""], CHAT, NO_COMMIT, None, None, None, None);
      for i := 0 to |chunks|
        invariant full == Text(chunks[..i])
        invariant forall k | 0 <= k < i :: chunks[k].value.content != []
        invariant i > 0 ==> whole.(content := [full]) == Whole(chunks[0].value, full)
      {
        if chunks[i].None? {
          assert false;
        }
        var chunk := chunks[i].value;
        if i == 0 {
          whole := whole.(sender := chunk.sender, kind := chunk.kind);
          whole := whole.(commitId := chunk.commitId, nostrEvent := chunk.nostrEvent);
          whole := whole.(messageId := None, sequenceNum := None, totalChunks := None);
        }
        assert chunks[..i + 1][..i] == chunks[..i];
        if chunk.content == [] {
          return Panic;
        }
        full := full + chunk.content[0];
      }
      assert chunks[..|chunks|] == chunks;
      r := Message(whole.(content := [full]));
    }
  }

  // ---------------------------------------------------------------------------------------------
  // Ids do not interfere

  function Only(history: seq<Msg>, id: string): seq<Chunk>
  {
    if history == [] then [] else
      var n := |history| - 1;
      Only(history[..n], id) + if Of(history[n], id) then [history[n]] else []
  }

  lemma {:induction false} EpochOfOnly(history: seq<Msg>, id: string)
    ensures Epoch(Only(history, id), id) == Epoch(history, id)
  {
    if history != [] {
      var n := |history| - 1;
      EpochOfOnly(history[..n], id);
      if Of(history[n], id) {
        assert Only(history, id)[..|Only(history[..n], id)|] == Only(history[..n], id);
      } else {
        assert Only(history, id) == Only(history[..n], id);
      }
    }
  }

  // What comes out for an id among all messages is what comes out for its chunks alone.
  lemma {:induction false} IdsDoNotInterfere(history: seq<Msg>, m: Msg)
    ensures IsChunk(m) ==> Reassembled(history, m) == Reassembled(Only(history, m.messageId.value), m)
    ensures !IsChunk(m) ==>
              Reassembled(history, m) == Nothing && forall id :: Only(history + [m], id) == Only(history, id)
  {
    if IsChunk(m) {
      EpochOfOnly(history, m.messageId.value);
    } else {
      assert (history + [m])[..|history|] == history;
      assert forall id :: Only(history, id) + [] == Only(history, id);
    }
  }

  // ---------------------------------------------------------------------------------------------
  // Order and duplicates do not matter

  // The chunks of one message, by number.
  predicate IsSplit(p: seq<Chunk>, id: string)
  {
    p != [] && forall k | 0 <= k < |p| :: Of(p[k], id) && Num(p[k]) == k && Total(p[k]) == |p|
  }

  // All chunks of id in s are chunks of p, in any order and any number.
  predicate ComesFrom(s: seq<Msg>, p: seq<Chunk>, id: string)
  {
    forall x <- s | Of(x, id) :: x in p
  }

  predicate Covers(s: seq<Msg>, p: seq<Chunk>)
  {
    forall k | 0 <= k < |p| :: p[k] in s
  }

  function Full(p: seq<Chunk>): seq<Option<Msg>>
  {
    seq(|p|, k requires 0 <= k < |p| => Some(p[k]))
  }

  lemma {:induction false} OnlyMembers(s: seq<Msg>, id: string)
    ensures forall x :: x in Only(s, id) <==> x in s && Of(x, id)
  {
    if s != [] {
      var n := |s| - 1;
      OnlyMembers(s[..n], id);
      assert s == s[..n] + [s[n]];
    }
  }

  // The first chunk with number k can only be chunk k of p.
  lemma {:induction false} FirstOfPieces(h: seq<Chunk>, p: seq<Chunk>, id: string, k: nat)
    requires IsSplit(p, id) && k < |p| && forall x <- h :: x in p
    ensures First(h, k) == if p[k] in h then Some(p[k]) else None
  {
    FirstIsChunk(h, k);
    if First(h, k).Some? {
      var x := First(h, k).value;
      assert x in p;
      var j :| 0 <= j < |p| && p[j] == x;
      assert j == k;
    }
  }

  lemma FinishesIffCovers(h: seq<Chunk>, p: seq<Chunk>, id: string)
    requires IsSplit(p, id) && h != [] && forall x <- h :: x in p
    ensures Ends(h) == Finishes(h) == Covers(h, p)
    ensures Covers(h, p) ==> Slots(h, |p|) == Full(p)
  {
    assert h[0] in p && h[|h| - 1] in p;
    forall k: nat | k < |p|
      ensures First(h, k) == if p[k] in h then Some(p[k]) else None
    {
      FirstOfPieces(h, p, id, k);
    }
  }

  // Until all chunks are there, the buffer is all that came.
  lemma {:induction false} EpochOfPieces(before: seq<Msg>, s: seq<Msg>, p: seq<Chunk>, id: string)
    requires IsSplit(p, id) && ComesFrom(s, p, id) && !Covers(s, p) && Epoch(before, id) == []
    ensures Epoch(before + s, id) == Only(s, id)
  {
    if s == [] {
      assert before + s == before;
    } else {
      var n := |s| - 1;
      var all := before + s;
      assert all[..|all| - 1] == before + s[..n] && all[|all| - 1] == s[n];
      assert s[n] in s && forall x <- s[..n] :: x in s;
      EpochOfPieces(before, s[..n], p, id);
      if Of(s[n], id) {
        LastPiece(s, p, id);
      }
    }
  }

  lemma {:induction false} LastPiece(s: seq<Msg>, p: seq<Chunk>, id: string)
    requires IsSplit(p, id) && ComesFrom(s, p, id) && !Covers(s, p) && s != [] && Of(s[|s| - 1], id)
    ensures var h := Only(s, id);
            h != [] && h == Only(s[..|s| - 1], id) + [s[|s| - 1]] && !Ends(h)
  {
    OnlyMembers(s, id);
    FinishesIffCovers(Only(s, id), p, id);
  }

  // A chunk that comes after s brings the message out if, and only if, it is the last one missing;
  // it is a panic instead if one of the chunks has no line.
  lemma {:induction false} ReassemblesOnceCovered(before: seq<Msg>, s: seq<Msg>, m: Chunk, p: seq<Chunk>, id: string)
    requires IsSplit(p, id) && Epoch(before, id) == [] && !Covers(s, p)
    requires Of(m, id) && ComesFrom(s + [m], p, id)
    ensures Reassembled(before + s, m) == if Covers(s + [m], p) then Join(p[0], Full(p)) else Nothing
    ensures Covers(s + [m], p) ==> Epoch(before + s + [m], id) == []
  {
    assert forall x <- s :: x in s + [m];
    assert m in s + [m];
    EpochOfPieces(before, s, p, id);
    var h: seq<Chunk> := Epoch(before + s, id) + [m];
    OnlyMembers(s, id);
    FinishesIffCovers(h, p, id);
    assert Covers(h, p) == Covers(s + [m], p);
    if Covers(h, p) {
      assert Full(p)[0] == Some(p[0]);
      assert Slots(h, |p|)[0] == First(h, 0);
      OthersUntouched(before + s, m, id);
    }
  }

  lemma PiecesAreDistinct(p: seq<Chunk>, id: string, j: nat)
    requires IsSplit(p, id) && j < |p|
    ensures multiset(p)[p[j]] == 1
  {
    assert p == p[..j] + [p[j]] + p[j + 1..];
    assert p[j] !in p[..j] && p[j] !in p[j + 1..];
  }

  // The panic happens exactly when a chunk without a line is among the chunks of a message.
  lemma JoinPanicsIff(p: seq<Chunk>)
    requires p != []
    ensures Join(p[0], Full(p)).Panic? <==> exists k | 0 <= k < |p| :: p[k].content == []
  {
    if k :| 0 <= k < |p| && p[k].content == [] {
      assert Full(p)[k] == Some(p[k]);
    }
  }

  // In whatever order the chunks come, the last brings the message out and the others nothing.
  lemma {:induction false} AnyOrderReassembles(before: seq<Msg>, s: seq<Chunk>, p: seq<Chunk>, id: string, i: nat)
    requires IsSplit(p, id) && Epoch(before, id) == [] && multiset(s) == multiset(p) && i < |s|
    ensures Reassembled(before + s[..i], s[i]) == if i == |s| - 1 then Join(p[0], Full(p)) else Nothing
  {
    LastIsMissing(s, p, id, i);
    forall x <- s
      ensures x in p
    {
      assert x in multiset(s);
    }
    forall k | 0 <= k < |p|
      ensures p[k] in s
    {
      assert p[k] in multiset(p);
    }
    assert s[..i] + [s[i]] == s[..i + 1];
    if i == |s| - 1 {
      assert s[..i + 1] == s;
    } else {
      LastIsMissing(s, p, id, i + 1);
    }
    assert s[i] in s;
    ReassemblesOnceCovered(before, s[..i], s[i], p, id);
  }

  // Short of its last chunk an arrangement lacks a chunk.
  lemma LastIsMissing(s: seq<Chunk>, p: seq<Chunk>, id: string, i: nat)
    requires IsSplit(p, id) && multiset(s) == multiset(p) && i < |s|
    ensures !Covers(s[..i], p)
  {
    var last := s[|s| - 1];
    assert last in multiset(s);
    var j :| 0 <= j < |p| && p[j] == last;
    PiecesAreDistinct(p, id, j);
    assert s == s[..|s| - 1] + [last];
    assert last !in s[..|s| - 1];
    assert forall x <- s[..i] :: x in s[..|s| - 1];
  }

  // Cutting a message into chunks.
  function Split(m: Msg, lines: seq<string>, id: string): seq<Chunk>
  {
    seq(|lines|, k requires 0 <= k < |lines| => Piece(m, lines, id, k))
  }

  function Piece(m: Msg, lines: seq<string>, id: string, k: nat): Chunk
    requires k < |lines|
  {
    m.(content := [lines[k]], messageId := Some(id), sequenceNum := Some(k), totalChunks := Some(|lines|))
  }

  function Joined(lines: seq<string>): string
  {
    if lines == [] then "" else Joined(lines[..|lines| - 1]) + lines[|lines| - 1]
  }

  lemma {:induction false} TextOfFull(p: seq<Chunk>, lines: seq<string>)
    requires |p| == |lines| && forall k | 0 <= k < |p| :: Line(p[k]) == lines[k]
    ensures Text(Full(p)) == Joined(lines)
  {
    if p != [] {
      var n := |p| - 1;
      TextOfFull(p[..n], lines[..n]);
      assert Full(p)[..n] == Full(p[..n]);
    }
  }

  // Chunks of a message in any order give back the message.
  lemma {:induction false} SplitRoundTrip(before: seq<Msg>, m: Msg, lines: seq<string>, id: string, s: seq<Chunk>)
    requires m.content == [Joined(lines)] && m.messageId == None && m.sequenceNum == None && m.totalChunks == None
    requires lines != [] && Epoch(before, id) == [] && multiset(s) == multiset(Split(m, lines, id))
    ensures s != [] && Reassembled(before + s[..|s| - 1], s[|s| - 1]) == Message(m)
  {
    var p := Split(m, lines, id);
    assert |multiset(s)| == |p|;
    TextOfFull(p, lines);
    AnyOrderReassembles(before, s, p, id, |s| - 1);
  }
}
