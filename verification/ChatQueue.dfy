// Sending chat messages: publish now, or queue until a peer connects.
module ChatQueue {
  import opened Reassembly

  // gossipsub's answer to a publish.
  datatype Answer = Accepted | Rejected(error: string)

  // What became of a message, and whether it had been queued.
  datatype Done = Done(msg: Msg, queued: bool, published: bool)

  datatype Notice = QueuedUntilPeer | SentQueued | PublishError(error: string)

  datatype State = State(pending: seq<Msg>, log: seq<Done>, notices: seq<Notice>)

  // `answers(i)` is the answer to the i-th publish of the flush.
  datatype Event = Send(msg: Msg, answer: Answer) | Connected(answers: nat -> Answer)

  const START := State([], [], [])

  function Lower(s: string): string
  {
    seq(|s|, i requires 0 <= i < |s| => if 'A' <= s[i] <= 'Z' then s[i] + 32 as char else s[i])
  }

  predicate Contains(s: string, word: string)
  {
    exists i | 0 <= i <= |s| :: OccursAt(s, word, i)
  }

  predicate OccursAt(s: string, word: string, i: nat)
  {
    i + |word| <= |s| && s[i..i + |word|] == word
  }

  predicate NoPeers(a: Answer)
  {
    a.Rejected? && Contains(Lower(a.error), "insufficient") && Contains(Lower(a.error), "peer")
  }

  // ---------------------------------------------------------------------------------------------
  // What the operations do

  function Sent(s: State, m: Msg, a: Answer): State
  {
    if NoPeers(a) then s.(pending := s.pending + [m], notices := s.notices + [QueuedUntilPeer])
    else if a.Accepted? then s.(log := s.log + [Done(m, false, true)])
    else s.(log := s.log + [Done(m, false, false)], notices := s.notices + [PublishError(a.error)])
  }

  // How many messages leave a queue of this length: all before the first that finds no peer.
  function Leaving(answers: nat -> Answer, length: nat): (n: nat)
    ensures n <= length
    ensures forall i: nat | i < n :: !NoPeers(answers(i))
    ensures n < length ==> NoPeers(answers(n))
  {
    LeavingFrom(answers, length, 0)
  }

  function LeavingFrom(answers: nat -> Answer, length: nat, k: nat): (n: nat)
    requires k <= length && forall i: nat | i < k :: !NoPeers(answers(i))
    ensures n <= length
    ensures forall i: nat | i < n :: !NoPeers(answers(i))
    ensures n < length ==> NoPeers(answers(n))
    decreases length - k
  {
    if k == length || NoPeers(answers(k)) then k else LeavingFrom(answers, length, k + 1)
  }

  function Outcomes(pending: seq<Msg>, answers: nat -> Answer, n: nat): seq<Done>
    requires n <= |pending|
  {
    seq(n, i requires 0 <= i < n => Done(pending[i], true, answers(i).Accepted?))
  }

  function Reports(answers: nat -> Answer, n: nat): seq<Notice>
  {
    seq(n, i requires 0 <= i < n => if answers(i).Accepted? then SentQueued else PublishError(answers(i).error))
  }

  function Flushed(s: State, answers: nat -> Answer): State
  {
    var n := Leaving(answers, |s.pending|);
    State(s.pending[n..], s.log + Outcomes(s.pending, answers, n), s.notices + Reports(answers, n))
  }

  class ChatSender {
    var pending: seq<Msg>
    var log: seq<Done>
    var notices: seq<Notice>

    function Now(): State
      reads this
    {
      State(pending, log, notices)
    }

    constructor ()
      ensures Now() == START
    {
      pending, log, notices := [], [], [];
    }

    method PublishOrQueue(m: Msg, answer: Answer)
      modifies this
      ensures Now() == Sent(old(Now()), m, answer)
    {
      if answer.Accepted? {
        log := log + [Done(m, false, true)];
      } else if NoPeers(answer) {
        pending := pending + [m];
        notices := notices + [QueuedUntilPeer];
      } else {
        log := log + [Done(m, false, false)];
        notices := notices + [PublishError(answer.error)];
      }
    }

    // A message that finds no peer goes back to the front, and the flush stops.
    method FlushPending(answers: nat -> Answer)
      modifies this
      ensures Now() == Flushed(old(Now()), answers)
    {
      ghost var start := Now();
      var n: nat := 0;
      while pending != []
        invariant n <= |start.pending| && pending == start.pending[n..]
        invariant forall i: nat | i < n :: !NoPeers(answers(i))
        invariant log == start.log + Outcomes(start.pending, answers, n)
        invariant notices == start.notices + Reports(answers, n)
        decreases |pending|
      {
        var m, answer := pending[0], answers(n);
        pending := pending[1..];
        if answer.Accepted? {
          log := log + [Done(m, true, true)];
          notices := notices + [SentQueued];
        } else if NoPeers(answer) {
          pending := [m] + pending;
          break;
        } else {
          log := log + [Done(m, true, false)];
          notices := notices + [PublishError(answer.error)];
        }
        n := n + 1;
        assert Outcomes(start.pending, answers, n) == Outcomes(start.pending, answers, n - 1) + [log[|log| - 1]];
        assert Reports(answers, n) == Reports(answers, n - 1) + [notices[|notices| - 1]];
      }
      assert n == Leaving(answers, |start.pending|);
    }
  }

  // ---------------------------------------------------------------------------------------------
  // Which answers queue a message

  // c is the small letter l or its capital.
  predicate SameLetter(c: char, l: char)
  {
    c == l || ('a' <= l <= 'z' && c as int + 32 == l as int)
  }

  // The word occurs in the text, whatever the case of its letters.
  predicate Says(text: string, word: string)
  {
    exists i: nat | i + |word| <= |text| :: SaysAt(text, word, i)
  }

  predicate SaysAt(text: string, word: string, i: nat)
    requires i + |word| <= |text|
  {
    forall k | 0 <= k < |word| :: SameLetter(text[i + k], word[k])
  }

  predicate SmallLetters(word: string)
  {
    forall k | 0 <= k < |word| :: 'a' <= word[k] <= 'z'
  }

  lemma SaysAtIff(text: string, word: string, i: nat)
    requires SmallLetters(word) && i + |word| <= |text|
    ensures OccursAt(Lower(text), word, i) <==> SaysAt(text, word, i)
  {
    var low := Lower(text);
    if OccursAt(low, word, i) {
      forall k | 0 <= k < |word|
        ensures SameLetter(text[i + k], word[k])
      {
        assert low[i..i + |word|][k] == low[i + k];
      }
    }
    if SaysAt(text, word, i) {
      forall k | 0 <= k < |word|
        ensures low[i..i + |word|][k] == word[k]
      {
        assert SameLetter(text[i + k], word[k]);
      }
    }
  }

  lemma SaysIff(text: string, word: string)
    requires SmallLetters(word)
    ensures Contains(Lower(text), word) <==> Says(text, word)
  {
    forall i: nat | i + |word| <= |text|
      ensures OccursAt(Lower(text), word, i) <==> SaysAt(text, word, i)
    {
      SaysAtIff(text, word, i);
    }
    if Contains(Lower(text), word) {
      var i :| 0 <= i <= |Lower(text)| && OccursAt(Lower(text), word, i);
      assert SaysAt(text, word, i);
    }
    if Says(text, word) {
      var i: nat :| i + |word| <= |text| && SaysAt(text, word, i);
      assert OccursAt(Lower(text), word, i);
    }
  }

  lemma NoPeersIff(a: Answer)
    ensures NoPeers(a) <==> a.Rejected? && Says(a.error, "insufficient") && Says(a.error, "peer")
  {
    if a.Rejected? {
      SaysIff(a.error, "insufficient");
      SaysIff(a.error, "peer");
    }
  }

  // A message waits exactly when the error speaks of insufficient peers. Any other is published or
  // reported at once, and the queue stays as it is.
  lemma QueuedIff(s: State, m: Msg, a: Answer)
    ensures var s' := Sent(s, m, a);
            if a.Rejected? && Says(a.error, "insufficient") && Says(a.error, "peer")
            then s' == State(s.pending + [m], s.log, s.notices + [QueuedUntilPeer])
            else && s'.pending == s.pending && s'.log == s.log + [Done(m, false, a.Accepted?)]
                 && s'.notices == s.notices + if a.Accepted? then [] else [PublishError(a.error)]
  {
    NoPeersIff(a);
  }

  // A flush ends at the first message whose error speaks of insufficient peers. Each one before it
  // is published, or reported with its error, and the user is told which.
  lemma FlushEndsAt(s: State, answers: nat -> Answer)
    ensures var s' := Flushed(s, answers);
            var n := |s.pending| - |s'.pending|;
            && 0 <= n && s'.pending == s.pending[n..]
            && (forall i: nat | i < n && answers(i).Rejected? ::
                  !(Says(answers(i).error, "insufficient") && Says(answers(i).error, "peer")))
            && (n < |s.pending| ==>
                  answers(n).Rejected? && Says(answers(n).error, "insufficient") && Says(answers(n).error, "peer"))
  {
    forall i: nat
      ensures NoPeers(answers(i))
         <==> answers(i).Rejected? && Says(answers(i).error, "insufficient") && Says(answers(i).error, "peer")
    {
      NoPeersIff(answers(i));
    }
  }

  lemma FlushTells(s: State, answers: nat -> Answer)
    ensures var s' := Flushed(s, answers);
            var n := |s.pending| - |s'.pending|;
            && 0 <= n && s.log <= s'.log && s.notices <= s'.notices
            && |s'.log| == |s.log| + n && |s'.notices| == |s.notices| + n
    ensures var s' := Flushed(s, answers);
            forall i: nat | i < |s.pending| - |s'.pending| ::
              && s'.log[|s.log| + i] == Done(s.pending[i], true, answers(i).Accepted?)
              && s'.notices[|s.notices| + i] == match answers(i)
                                                case Accepted => SentQueued
                                                case Rejected(error) => PublishError(error)
  {
    var s', n := Flushed(s, answers), Leaving(answers, |s.pending|);
    forall i: nat | i < n
      ensures s'.log[|s.log| + i] == Done(s.pending[i], true, answers(i).Accepted?)
      ensures s'.notices[|s.notices| + i] == Reports(answers, n)[i]
    {
      assert Outcomes(s.pending, answers, n)[i] == Done(s.pending[i], true, answers(i).Accepted?);
    }
  }

  // Too large a message and one sent twice are reported, and leave nothing pending.
  lemma OtherErrorsAreReported(s: State, m: Msg, error: string)
    requires error == "MessageTooLarge" || error == "Duplicate"
    ensures Sent(s, m, Rejected(error))
         == State(s.pending, s.log + [Done(m, false, false)], s.notices + [PublishError(error)])
  {
    NoPeersIff(Rejected(error));
    var word := "insufficient";
    forall i: nat | i + |word| <= |error|
      ensures !SaysAt(error, word, i)
    {
      assert !SameLetter(error[i + 0], word[0]);
    }
  }

  // ---------------------------------------------------------------------------------------------
  // Whole runs

  function Run(events: seq<Event>): State
  {
    if events == [] then START else
      var s, e := Run(events[..|events| - 1]), events[|events| - 1];
      match e
      case Send(m, a) => Sent(s, m, a)
      case Connected(answers) => Flushed(s, answers)
  }

  // The messages handed in, of those queued and of those not.
  function HandedIn(events: seq<Event>, queued: bool): seq<Msg>
  {
    if events == [] then [] else
      var e := events[|events| - 1];
      HandedIn(events[..|events| - 1], queued)
      + if e.Send? && NoPeers(e.answer) == queued then [e.msg] else []
  }

  function AllHandedIn(events: seq<Event>): seq<Msg>
  {
    if events == [] then [] else
      var e := events[|events| - 1];
      AllHandedIn(events[..|events| - 1]) + if e.Send? then [e.msg] else []
  }

  // The messages done with, in order, of those queued and of those not.
  function Left(log: seq<Done>, queued: bool): seq<Msg>
  {
    if log == [] then [] else
      var d := log[|log| - 1];
      Left(log[..|log| - 1], queued) + if d.queued == queued then [d.msg] else []
  }

  function WithOutcome(log: seq<Done>, published: bool): seq<Msg>
  {
    if log == [] then [] else
      var d := log[|log| - 1];
      WithOutcome(log[..|log| - 1], published) + if d.published == published then [d.msg] else []
  }

  lemma {:induction false} LeftAppends(a: seq<Done>, b: seq<Done>, queued: bool)
    ensures Left(a + b, queued) == Left(a, queued) + Left(b, queued)
  {
    if b == [] {
      assert a + b == a;
    } else {
      LeftAppends(a, b[..|b| - 1], queued);
      assert (a + b)[..|a + b| - 1] == a + b[..|b| - 1];
    }
  }

  lemma OutcomesLeft(pending: seq<Msg>, answers: nat -> Answer, n: nat)
    requires n <= |pending|
    ensures Left(Outcomes(pending, answers, n), true) == pending[..n]
    ensures Left(Outcomes(pending, answers, n), false) == []
  {
    if n > 0 {
      OutcomesLeft(pending, answers, n - 1);
      var all := Outcomes(pending, answers, n);
      assert all[..n - 1] == Outcomes(pending, answers, n - 1);
    }
  }

  // The queued messages leave in the order they were handed in, and those still pending are the
  // rest of them; the others are done with at once, in order.
  lemma {:induction false} OrderIsKept(events: seq<Event>)
    ensures var s := Run(events);
            && Left(s.log, true) + s.pending == HandedIn(events, true)
            && Left(s.log, false) == HandedIn(events, false)
  {
    if events != [] {
      var n := |events| - 1;
      OrderIsKept(events[..n]);
      var s := Run(events[..n]);
      match events[n]
      case Send(m, a) => SendKeepsOrder(s, m, a);
      case Connected(answers) => FlushKeepsOrder(s, answers);
    }
  }

  lemma SendKeepsOrder(s: State, m: Msg, a: Answer)
    ensures var s' := Sent(s, m, a);
            && Left(s'.log, true) + s'.pending == Left(s.log, true) + s.pending + (if NoPeers(a) then [m] else [])
            && Left(s'.log, false) == Left(s.log, false) + if NoPeers(a) then [] else [m]
  {
  }

  lemma FlushKeepsOrder(s: State, answers: nat -> Answer)
    ensures var s' := Flushed(s, answers);
            && Left(s'.log, true) + s'.pending == Left(s.log, true) + s.pending
            && Left(s'.log, false) == Left(s.log, false)
  {
    var k := Leaving(answers, |s.pending|);
    OutcomesLeft(s.pending, answers, k);
    var gone := Outcomes(s.pending, answers, k);
    LeftAppends(s.log, gone, true);
    LeftAppends(s.log, gone, false);
    Rejoin(Left(s.log, true), s.pending, k);
  }

  lemma Rejoin(a: seq<Msg>, p: seq<Msg>, k: nat)
    requires k <= |p|
    ensures a + p[..k] + p[k..] == a + p
  {
    assert p == p[..k] + p[k..];
  }

  lemma {:induction false} HandedInSplits(events: seq<Event>)
    ensures multiset(AllHandedIn(events)) == multiset(HandedIn(events, true)) + multiset(HandedIn(events, false))
  {
    if events != [] {
      HandedInSplits(events[..|events| - 1]);
    }
  }

  function Both(a: seq<Msg>, b: seq<Msg>): multiset<Msg>
  {
    multiset(a) + multiset(b)
  }

  // Split by queueing or by outcome, the log holds the same messages.
  lemma {:induction false} LogSplits(log: seq<Done>)
    ensures Both(Left(log, true), Left(log, false)) == Both(WithOutcome(log, true), WithOutcome(log, false))
  {
    if log != [] {
      var init, d := log[..|log| - 1], log[|log| - 1];
      LogSplits(init);
      LeftAdds(log);
      OutcomeAdds(log);
    }
  }

  lemma LeftAdds(log: seq<Done>)
    requires log != []
    ensures var init, d := log[..|log| - 1], log[|log| - 1];
            Both(Left(log, true), Left(log, false)) == Both(Left(init, true), Left(init, false)) + multiset{d.msg}
  {
  }

  lemma OutcomeAdds(log: seq<Done>)
    requires log != []
    ensures var init, d := log[..|log| - 1], log[|log| - 1];
            Both(WithOutcome(log, true), WithOutcome(log, false))
            == Both(WithOutcome(init, true), WithOutcome(init, false)) + multiset{d.msg}
  {
  }

  // No message is lost and none is doubled, whatever gossipsub answers.
  lemma {:induction false} MessagesAreConserved(events: seq<Event>)
    ensures var s := Run(events);
            && multiset(AllHandedIn(events))
               == multiset(WithOutcome(s.log, true)) + multiset(WithOutcome(s.log, false)) + multiset(s.pending)
  {
    var s := Run(events);
    OrderIsKept(events);
    HandedInSplits(events);
    LogSplits(s.log);
    assert multiset(Left(s.log, true) + s.pending) == multiset(Left(s.log, true)) + multiset(s.pending);
  }

  // ---------------------------------------------------------------------------------------------
  // The order of all messages

  function Messages(log: seq<Done>): seq<Msg>
  {
    if log == [] then [] else Messages(log[..|log| - 1]) + [log[|log| - 1].msg]
  }

  lemma {:induction false} MessagesAppend(a: seq<Done>, b: seq<Done>)
    ensures Messages(a + b) == Messages(a) + Messages(b)
  {
    if b == [] {
      assert a + b == a;
    } else {
      MessagesAppend(a, b[..|b| - 1]);
      assert (a + b)[..|a + b| - 1] == a + b[..|b| - 1];
    }
  }

  lemma OutcomesMessages(pending: seq<Msg>, answers: nat -> Answer, n: nat)
    requires n <= |pending|
    ensures Messages(Outcomes(pending, answers, n)) == pending[..n]
  {
    if n > 0 {
      OutcomesMessages(pending, answers, n - 1);
      assert Outcomes(pending, answers, n)[..n - 1] == Outcomes(pending, answers, n - 1);
    }
  }

  lemma {:induction false} MessagesSize(log: seq<Done>)
    ensures |Messages(log)| == |log|
  {
    if log != [] {
      MessagesSize(log[..|log| - 1]);
    }
  }

  // All messages: those done with, then those pending.
  function Line(s: State): seq<Msg>
  {
    Messages(s.log) + s.pending
  }

  // The message goes to the end of those done with, or to the very end.
  function Placed<T>(line: seq<T>, x: T, done: nat, queued: bool): seq<T>
    requires done <= |line|
  {
    if queued then line + [x] else line[..done] + [x] + line[done..]
  }

  lemma SentLine(s: State, m: Msg, a: Answer)
    ensures |s.log| <= |Line(s)| && Line(Sent(s, m, a)) == Placed(Line(s), m, |s.log|, NoPeers(a))
  {
    MessagesSize(s.log);
    if !NoPeers(a) {
      MessagesAppend(s.log, [Done(m, false, a.Accepted?)]);
      assert Messages([Done(m, false, a.Accepted?)]) == [m] by {
        assert [Done(m, false, a.Accepted?)][..0] == [];
      }
      var line := Line(s);
      assert line[..|s.log|] == Messages(s.log) && line[|s.log|..] == s.pending;
    }
  }

  // A flush changes no place in the line.
  lemma FlushedLine(s: State, answers: nat -> Answer)
    ensures Line(Flushed(s, answers)) == Line(s)
  {
    var n := Leaving(answers, |s.pending|);
    MessagesAppend(s.log, Outcomes(s.pending, answers, n));
    OutcomesMessages(s.pending, answers, n);
    Rejoin(Messages(s.log), s.pending, n);
  }

  // The numbers of the messages, counted as they are handed in, in the order of the line.
  function Order(events: seq<Event>): (r: seq<nat>)
    ensures |r| == |AllHandedIn(events)| == |Line(Run(events))|
  {
    if events == [] then [] else
      var n := |events| - 1;
      var s, line := Run(events[..n]), Order(events[..n]);
      match events[n]
      case Send(m, a) =>
        SentLine(s, m, a);
        Placed(line, |line|, |s.log|, NoPeers(a))
      case Connected(answers) =>
        FlushedLine(s, answers);
        line
  }

  // Each place of the line holds the message with that number, and each number has one place.
  lemma {:induction false} OrderTells(events: seq<Event>)
    ensures forall i | 0 <= i < |Order(events)| ::
              Order(events)[i] < |Order(events)| && Line(Run(events))[i] == AllHandedIn(events)[Order(events)[i]]
    ensures forall i, j | 0 <= i < j < |Order(events)| :: Order(events)[i] != Order(events)[j]
  {
    if events != [] {
      var n := |events| - 1;
      OrderTells(events[..n]);
      var s := Run(events[..n]);
      match events[n]
      case Send(m, a) =>
        SentLine(s, m, a);
        PlacedTells(Order(events[..n]), Line(s), AllHandedIn(events[..n]), m, |s.log|, NoPeers(a));
      case Connected(answers) => FlushedLine(s, answers);
    }
  }

  // The place in the old line of what is in place i of the new one; |line| for what is new.
  function Came(i: nat, size: nat, done: nat, queued: bool): nat
    requires done <= size && i <= size
  {
    if queued || i < done then i else if i == done then size else i - 1
  }

  lemma PlacedAt<T>(line: seq<T>, x: T, done: nat, queued: bool, i: nat)
    requires done <= |line| && i <= |line|
    ensures |Placed(line, x, done, queued)| == |line| + 1
    ensures Placed(line, x, done, queued)[i]
         == var c := Came(i, |line|, done, queued); if c < |line| then line[c] else x
  {
  }

  lemma PlacedTells(order: seq<nat>, line: seq<Msg>, all: seq<Msg>, m: Msg, done: nat, queued: bool)
    requires |order| == |line| == |all| && done <= |line|
    requires forall i | 0 <= i < |order| :: order[i] < |order| && line[i] == all[order[i]]
    requires forall i, j | 0 <= i < j < |order| :: order[i] != order[j]
    ensures var order', line' := Placed(order, |order|, done, queued), Placed(line, m, done, queued);
            && |order'| == |line'| == |all| + 1
            && (forall i | 0 <= i < |order'| :: order'[i] < |order'| && line'[i] == (all + [m])[order'[i]])
            && (forall i, j | 0 <= i < j < |order'| :: order'[i] != order'[j])
  {
    var order', line', n := Placed(order, |order|, done, queued), Placed(line, m, done, queued), |order|;
    forall i | 0 <= i <= n
      ensures |order'| == |line'| == n + 1
      ensures order'[i] <= n && line'[i] == (all + [m])[order'[i]]
    {
      PlacedAt(order, n, done, queued, i);
      PlacedAt(line, m, done, queued, i);
    }
    PlacedDiffer(order, done, queued);
  }

  lemma PlacedDiffer(order: seq<nat>, done: nat, queued: bool)
    requires done <= |order| && forall i | 0 <= i < |order| :: order[i] < |order|
    requires forall i, j | 0 <= i < j < |order| :: order[i] != order[j]
    ensures var order' := Placed(order, |order|, done, queued);
            forall i, j | 0 <= i < j < |order'| :: order'[i] != order'[j]
  {
    var order' := Placed(order, |order|, done, queued);
    forall i, j | 0 <= i < j < |order'|
      ensures order'[i] != order'[j]
    {
      PlacedAt(order, |order|, done, queued, i);
      PlacedAt(order, |order|, done, queued, j);
    }
  }

  predicate InOrder(order: seq<nat>)
  {
    forall i, j | 0 <= i < j < |order| :: order[i] < order[j]
  }

  // A message is done with at once while others wait.
  predicate Overtakes(s: State, e: Event)
  {
    e.Send? && !NoPeers(e.answer) && s.pending != []
  }

  predicate NoneOvertakes(events: seq<Event>)
  {
    forall i | 0 <= i < |events| :: !Overtakes(Run(events[..i]), events[i])
  }

  lemma PlacedInOrder(order: seq<nat>, done: nat, queued: bool)
    requires done <= |order| && forall i | 0 <= i < |order| :: order[i] < |order|
    ensures InOrder(Placed(order, |order|, done, queued)) <==> InOrder(order) && (queued || done == |order|)
  {
    var placed := Placed(order, |order|, done, queued);
    if !queued && done < |order| {
      assert placed[done] == |order| && placed[done + 1] == order[done];
    } else if InOrder(placed) {
      forall i, j | 0 <= i < j < |order|
        ensures order[i] < order[j]
      {
        assert order[i] == placed[i] && order[j] == placed[j];
      }
    }
  }

  lemma NoneOvertakesStep(events: seq<Event>)
    requires events != []
    ensures var n := |events| - 1;
            NoneOvertakes(events) <==> NoneOvertakes(events[..n]) && !Overtakes(Run(events[..n]), events[n])
  {
    var n := |events| - 1;
    forall i | 0 <= i < n
      ensures Overtakes(Run(events[..n][..i]), events[..n][i]) == Overtakes(Run(events[..i]), events[i])
    {
      assert events[..n][..i] == events[..i];
    }
    if NoneOvertakes(events) {
      forall i | 0 <= i < n
        ensures !Overtakes(Run(events[..n][..i]), events[..n][i])
      {
        assert !Overtakes(Run(events[..i]), events[i]);
      }
    }
    if NoneOvertakes(events[..n]) && !Overtakes(Run(events[..n]), events[n]) {
      forall i | 0 <= i < |events|
        ensures !Overtakes(Run(events[..i]), events[i])
      {
        if i < n {
          assert !Overtakes(Run(events[..n][..i]), events[..n][i]);
        }
      }
    }
  }

  // Messages done with and messages waiting are in the order they were handed in exactly when none
  // was done with at once while others waited.
  lemma {:induction false} OrderIsKeptIff(events: seq<Event>)
    ensures InOrder(Order(events)) <==> NoneOvertakes(events)
  {
    if events != [] {
      var n := |events| - 1;
      var s := Run(events[..n]);
      OrderIsKeptIff(events[..n]);
      NoneOvertakesStep(events);
      match events[n]
      case Send(m, a) =>
        OrderTells(events[..n]);
        MessagesSize(s.log);
        PlacedInOrder(Order(events[..n]), |s.log|, NoPeers(a));
      case Connected(_) =>
    }
  }

  // A first message waits for a peer, and a second one is published at once.
  lemma DirectOvertakes(first: Msg, second: Msg)
    ensures var events := [Send(first, Rejected("InsufficientPeers")), Send(second, Accepted)];
            Order(events) == [1, 0] && Run(events).pending == [first] && Run(events).log == [Done(second, false, true)]
  {
    var lack := Rejected("InsufficientPeers");
    LacksPeers();
    var events := [Send(first, lack), Send(second, Accepted)];
    assert events[..1] == [Send(first, lack)] && events[..1][..0] == [];
    assert Run(events[..1]) == Sent(START, first, lack);
    assert Order(events[..1]) == [0];
  }

  lemma LacksPeers()
    ensures NoPeers(Rejected("InsufficientPeers"))
  {
    var text := Lower("InsufficientPeers");
    assert text[0..12] == "insufficient" && OccursAt(text, "insufficient", 0);
    assert text[12..16] == "peer" && OccursAt(text, "peer", 12);
  }
}
