/**
 The one-to-many feed of event/feed.go.  A Send holds the send lock, so only it touches sendCases;
 meanwhile other goroutines subscribe and cancel, and a cancellation that finds its channel gone
 from the inbox waits until the Send, or the free lock, takes it.
 */
module Feed {
  import opened Types

  type Value = nat

  datatype Chan = RemoveSub | Subscriber(name: nat)

  /** A select case.  `id` tells cases on the same channel apart; no step depends on it. */
  datatype Case = Case(chan: Chan, id: nat, send: Option<Value>)

  /** A value that arrived on a channel, through the case with that id. */
  datatype Delivery = Delivery(chan: Chan, id: nat, value: Value)

  const FIRST_SUB_SEND_CASE: nat := 1

  // ---- Case lists ----

  function Channels(cs: seq<Case>): (r: seq<Chan>)
    ensures |r| == |cs| && forall i :: 0 <= i < |cs| ==> r[i] == cs[i].chan
  {
    seq(|cs|, i requires 0 <= i < |cs| => cs[i].chan)
  }

  /** The channels of a case list, each as often as it occurs. */
  ghost function Chans(cs: seq<Case>): multiset<Chan> {
    multiset(Channels(cs))
  }

  function Delete(cs: seq<Case>, i: nat): seq<Case>
    requires i < |cs|
  {
    cs[..i] + cs[i + 1..]
  }

  /** Moves a case to the end of the first n, where the next, shorter prefix does not reach it. */
  function Deactivate(cs: seq<Case>, n: nat, i: nat): seq<Case>
    requires i < n <= |cs|
  {
    cs[i := cs[n - 1]][n - 1 := cs[i]]
  }

  lemma ChansConcat(a: seq<Case>, b: seq<Case>)
    ensures Chans(a + b) == Chans(a) + Chans(b)
  {
    assert Channels(a + b) == Channels(a) + Channels(b);
  }

  lemma ChansDelete(cs: seq<Case>, i: nat)
    requires i < |cs|
    ensures cs[i].chan in Chans(cs) && Chans(Delete(cs, i)) == Chans(cs) - multiset{cs[i].chan}
  {
    var all := Channels(cs);
    assert Channels(Delete(cs, i)) == all[..i] + all[i + 1..];
    assert all == all[..i] + [all[i]] + all[i + 1..];
  }

  lemma ChansDeactivate(cs: seq<Case>, n: nat, i: nat)
    requires i < n <= |cs|
    ensures Chans(Deactivate(cs, n, i)) == Chans(cs)
  {
    var all := Channels(cs);
    assert Channels(Deactivate(cs, n, i)) == all[i := all[n - 1]][n - 1 := all[i]];
  }

  /** The first case on a channel, or -1 if there is none. */
  method Find(cs: seq<Case>, ch: Chan) returns (index: int)
    ensures index == -1 <==> ch !in Chans(cs)
    ensures index != -1 ==> 0 <= index < |cs| && cs[index].chan == ch && forall j :: 0 <= j < index ==> cs[j].chan != ch
  {
    index := 0;
    while index < |cs|
      invariant 0 <= index <= |cs|
      invariant forall j :: 0 <= j < index ==> cs[j].chan != ch
    {
      if cs[index].chan == ch {
        ChansDelete(cs, index);
        return;
      }
      index := index + 1;
    }
    assert ch !in Channels(cs);
    index := -1;
  }

  /** The first case receives cancellations, the others stand for subscribers, and all have their own id. */
  ghost predicate CasesOk(cs: seq<Case>) {
    && |cs| >= 1 && cs[0] == Case(RemoveSub, 0, None)
    && forall i :: 1 <= i < |cs| ==> cs[i].chan.Subscriber?
  }

  ghost predicate Distinct(cs: seq<Case>, bound: nat) {
    && (forall i :: 0 <= i < |cs| ==> cs[i].id < bound)
    && (forall i, j :: 0 <= i < j < |cs| ==> cs[i].id != cs[j].id)
  }

  /**
   Every case belongs to a live subscription or to a cancellation under way, and whoever waits to
   be taken out still is in sendCases.
   */
  ghost predicate Accounted(sendCases: seq<Case>, inbox: seq<Case>, live: multiset<Chan>, waiting: multiset<Chan>) {
    && Chans(sendCases) + Chans(inbox) == live + waiting + multiset{RemoveSub}
    && waiting <= Chans(sendCases) && RemoveSub !in waiting
  }

  lemma AccountJoined(sendCases: seq<Case>, inbox: seq<Case>, live: multiset<Chan>, waiting: multiset<Chan>, cas: Case)
    requires Accounted(sendCases, inbox, live, waiting)
    ensures Accounted(sendCases, inbox + [cas], live + multiset{cas.chan}, waiting)
  {
    ChansConcat(inbox, [cas]);
    assert Channels([cas]) == [cas.chan];
    assert Chans(sendCases) + (Chans(inbox) + multiset{cas.chan})
        == (Chans(sendCases) + Chans(inbox)) + multiset{cas.chan};
  }

  lemma AccountCancelled(sendCases: seq<Case>, inbox: seq<Case>, live: multiset<Chan>, waiting: multiset<Chan>, i: nat)
    requires Accounted(sendCases, inbox, live, waiting) && i < |inbox| && inbox[i].chan in live
    ensures Accounted(sendCases, Delete(inbox, i), live - multiset{inbox[i].chan}, waiting)
  {
    var ch, rest := inbox[i].chan, waiting + multiset{RemoveSub};
    ChansDelete(inbox, i);
    assert Chans(sendCases) + (Chans(inbox) - multiset{ch}) == (Chans(sendCases) + Chans(inbox)) - multiset{ch};
    assert (live - multiset{ch}) + rest == (live + rest) - multiset{ch};
  }

  lemma AccountCommitted(sendCases: seq<Case>, inbox: seq<Case>, live: multiset<Chan>, waiting: multiset<Chan>,
                         ch: Chan)
    requires Accounted(sendCases, inbox, live, waiting) && ch in live && ch !in Chans(inbox) && ch.Subscriber?
    ensures Accounted(sendCases, inbox, live - multiset{ch}, waiting + multiset{ch})
  {
    assert Chans(sendCases)[ch] == (Chans(sendCases) + Chans(inbox))[ch] == live[ch] + waiting[ch];
    assert live == (live - multiset{ch}) + multiset{ch};
  }

  lemma AccountTaken(sendCases: seq<Case>, inbox: seq<Case>, live: multiset<Chan>, waiting: multiset<Chan>, i: nat)
    requires Accounted(sendCases, inbox, live, waiting) && i < |sendCases| && sendCases[i].chan in waiting
    ensures Accounted(Delete(sendCases, i), inbox, live, waiting - multiset{sendCases[i].chan})
  {
    var ch, rest := sendCases[i].chan, live + multiset{RemoveSub};
    ChansDelete(sendCases, i);
    assert (Chans(sendCases) - multiset{ch}) + Chans(inbox) == (Chans(sendCases) + Chans(inbox)) - multiset{ch};
    assert live + (waiting - multiset{ch}) + multiset{RemoveSub}
        == (live + waiting + multiset{RemoveSub}) - multiset{ch};
  }

  lemma DeleteDistinct(cs: seq<Case>, i: nat, bound: nat)
    requires Distinct(cs, bound) && i < |cs|
    ensures Distinct(Delete(cs, i), bound)
  {
    assert forall j :: 0 <= j < |cs| - 1 ==> Delete(cs, i)[j] == cs[if j < i then j else j + 1];
  }

  /** A waiting cancellation finds its channel. */
  method FindWaiting(cs: seq<Case>, waiting: multiset<Chan>, ch: Chan) returns (index: nat)
    requires waiting <= Chans(cs) && ch in waiting
    ensures index < |cs| && cs[index].chan == ch && forall j :: 0 <= j < index ==> cs[j].chan != ch
  {
    var at := Find(cs, ch);
    assert ch in Chans(cs);
    index := at;
  }

  lemma Cancelled(sendCases: seq<Case>, inbox: seq<Case>, live: multiset<Chan>, waiting: multiset<Chan>, i: nat,
                  bound: nat)
    requires Distinct(sendCases + inbox, bound) && Accounted(sendCases, inbox, live, waiting)
    requires i < |inbox| && inbox[i].chan in live
    ensures var rest := Delete(inbox, i);
            && Distinct(sendCases + rest, bound)
            && Accounted(sendCases, rest, live - multiset{inbox[i].chan}, waiting)
            && Chans(rest) == Chans(inbox) - multiset{inbox[i].chan}
            && forall j :: 0 <= j < |rest| ==> rest[j] in inbox
  {
    ChansDelete(inbox, i);
    AccountCancelled(sendCases, inbox, live, waiting, i);
    DeleteDistinct(sendCases + inbox, |sendCases| + i, bound);
    assert Delete(sendCases + inbox, |sendCases| + i) == sendCases + Delete(inbox, i);
  }

  lemma TakenOut(sendCases: seq<Case>, inbox: seq<Case>, live: multiset<Chan>, waiting: multiset<Chan>, i: nat,
                 bound: nat)
    requires CasesOk(sendCases) && Distinct(sendCases + inbox, bound) && Accounted(sendCases, inbox, live, waiting)
    requires i < |sendCases| && sendCases[i].chan in waiting
    ensures 1 <= i
    ensures var rest := Delete(sendCases, i);
            && CasesOk(rest) && Distinct(rest + inbox, bound)
            && Accounted(rest, inbox, live, waiting - multiset{sendCases[i].chan})
            && Chans(rest) == Chans(sendCases) - multiset{sendCases[i].chan}
  {
    ChansDelete(sendCases, i);
    AccountTaken(sendCases, inbox, live, waiting, i);
    DeleteDistinct(sendCases + inbox, i, bound);
    assert Delete(sendCases + inbox, i) == Delete(sendCases, i) + inbox;
  }

  // ---- What holds throughout a Send ----

  ghost predicate Served(news: seq<Delivery>, id: nat) {
    exists j :: 0 <= j < |news| && news[j].id == id
  }

  ghost predicate FromCase(d: Delivery, start: seq<Case>, value: Value) {
    exists k :: 1 <= k < |start| && d == Delivery(start[k].chan, start[k].id, value)
  }

  /** What was delivered: the value, to cases of the list at the start, to none of them twice. */
  ghost predicate Genuine(start: seq<Case>, news: seq<Delivery>, value: Value) {
    && (forall j :: 0 <= j < |news| ==> FromCase(news[j], start, value))
    && (forall i, j :: 0 <= i < j < |news| ==> news[i].id != news[j].id)
  }

  /** Of the cases that remain, the first n are still to be served and the others have been. */
  ghost predicate Serving(cs: seq<Case>, n: nat, news: seq<Delivery>) {
    && FIRST_SUB_SEND_CASE <= n <= |cs|
    && (forall i :: 1 <= i < n ==> !Served(news, cs[i].id))
    && (forall i :: n <= i < |cs| ==> Served(news, cs[i].id))
  }

  /** All cases but the first carry the value, and they are cases of the list at the start. */
  ghost predicate Remaining(cs: seq<Case>, start: seq<Case>, value: Value) {
    && |start| >= 1
    && (forall i :: 1 <= i < |cs| ==> cs[i].send == Some(value))
    && (forall i :: 1 <= i < |cs| ==> cs[i] in start[1..])
  }

  lemma DeactivateKeeps(cs: seq<Case>, n: nat, start: seq<Case>, news: seq<Delivery>, value: Value, i: nat, bound: nat)
    requires CasesOk(cs) && Distinct(cs, bound) && Remaining(cs, start, value)
    requires Serving(cs, n, news) && Genuine(start, news, value) && 1 <= i < n
    ensures var cs' := Deactivate(cs, n, i);
            var news' := news + [Delivery(cs[i].chan, cs[i].id, value)];
            && CasesOk(cs') && Distinct(cs', bound) && Remaining(cs', start, value)
            && Serving(cs', n - 1, news') && Genuine(start, news', value)
  {
    var cs', d := Deactivate(cs, n, i), Delivery(cs[i].chan, cs[i].id, value);
    var news' := news + [d];
    assert cs[i] in start[1..];
    var k :| 1 <= k < |start| && start[k] == cs[i];
    assert FromCase(d, start, value);
    assert forall j :: 0 <= j < |news| ==> news'[j] == news[j];
    assert news'[|news|] == d;
    forall id: nat ensures Served(news', id) <==> Served(news, id) || id == d.id {
      if Served(news, id) {
        var j :| 0 <= j < |news| && news[j].id == id;
        assert news'[j].id == id;
      }
    }
  }

  lemma DeleteKeeps(cs: seq<Case>, n: nat, start: seq<Case>, news: seq<Delivery>, value: Value, i: nat, bound: nat)
    requires CasesOk(cs) && Distinct(cs, bound) && Remaining(cs, start, value)
    requires Serving(cs, n, news) && 1 <= i < |cs|
    ensures var cs' := Delete(cs, i);
            && CasesOk(cs') && Distinct(cs', bound) && Remaining(cs', start, value)
            && Serving(cs', if i < n then n - 1 else n, news)
  {
    var cs' := Delete(cs, i);
    assert forall j :: 0 <= j < |cs'| ==> cs'[j] == cs[if j < i then j else j + 1];
  }

  /** The list with the sent value set, or cleared, on every subscriber's case. */
  function WithSend(cs: seq<Case>, v: Option<Value>): (r: seq<Case>)
    ensures |r| == |cs| && forall i :: 0 <= i < |cs| ==> r[i] == if i == 0 then cs[0] else cs[i].(send := v)
  {
    seq(|cs|, i requires 0 <= i < |cs| => if i == 0 then cs[0] else cs[i].(send := v))
  }

  method SetAll(list: seq<Case>, v: Option<Value>) returns (cs: seq<Case>)
    ensures cs == WithSend(list, v)
  {
    cs := list;
    var i := FIRST_SUB_SEND_CASE;
    while i < |cs|
      invariant 1 <= i && |cs| == |list|
      invariant forall j :: 0 <= j < |cs| ==> cs[j] == if j < i then WithSend(list, v)[j] else list[j]
    {
      cs := cs[i := cs[i].(send := v)];
      i := i + 1;
    }
  }

  lemma WithSendKeeps(cs: seq<Case>, inbox: seq<Case>, v: Option<Value>, bound: nat)
    requires CasesOk(cs) && Distinct(cs + inbox, bound)
    ensures CasesOk(WithSend(cs, v)) && Distinct(WithSend(cs, v) + inbox, bound) && Chans(WithSend(cs, v)) == Chans(cs)
  {
    var cs' := WithSend(cs, v);
    assert Channels(cs') == Channels(cs);
    assert forall i :: 0 <= i < |cs + inbox| ==> (cs' + inbox)[i].id == (cs + inbox)[i].id;
  }

  lemma SwapDistinct(cs: seq<Case>, inbox: seq<Case>, n: nat, i: nat, bound: nat)
    requires i < n <= |cs| && Distinct(cs + inbox, bound)
    ensures Distinct(Deactivate(cs, n, i) + inbox, bound)
  {
    var all, cs' := cs + inbox, Deactivate(cs, n, i);
    assert forall j :: 0 <= j < |all| ==>
      (cs' + inbox)[j] == all[if j == i then n - 1 else if j == n - 1 then i else j];
  }

  /** Once nothing is left to serve, in terms of the cases before the value was set on them. */
  lemma Finished(cs: seq<Case>, left: seq<Case>, news: seq<Delivery>, value: Value)
    requires Genuine(WithSend(cs, Some(value)), news, value)
    requires Remaining(left, WithSend(cs, Some(value)), value) && Serving(left, 1, news)
    requires forall i :: 0 <= i < |cs| ==> cs[i].send == None
    ensures Genuine(cs, news, value)
    ensures forall i :: 1 <= i < |left| ==> left[i].(send := None) in cs && Served(news, left[i].id)
  {
    var start := WithSend(cs, Some(value));
    forall j | 0 <= j < |news| ensures FromCase(news[j], cs, value) {
      assert FromCase(news[j], start, value);
      var k :| 1 <= k < |start| && news[j] == Delivery(start[k].chan, start[k].id, value);
      assert news[j] == Delivery(cs[k].chan, cs[k].id, value);
    }
    forall i | 1 <= i < |left| ensures left[i].(send := None) in cs {
      assert left[i] in start[1..];
      var k :| 0 <= k < |start| - 1 && start[1..][k] == left[i];
      assert cs[k + 1] == left[i].(send := None);
    }
  }

  // ---- What the other goroutines do ----

  /** A call of Subscribe, or of Unsubscribe on one of the subscriptions of a channel. */
  datatype Act = Join(name: nat) | Cancel(name: nat)

  /** The subscriptions that are not cancelled after t acts. */
  ghost function Live(others: nat -> Act, t: nat): multiset<Chan> {
    if t == 0 then multiset{} else
    var before := Live(others, t - 1);
    match others(t - 1)
    case Join(name) => before + multiset{Subscriber(name)}
    case Cancel(name) => if Subscriber(name) in before then before - multiset{Subscriber(name)} else before
  }

  /** The subscriptions cancelled by the first t acts; a cancellation needs one that is not cancelled yet. */
  ghost function Quit(others: nat -> Act, t: nat): multiset<Chan> {
    if t == 0 then multiset{} else
    var before := Quit(others, t - 1);
    match others(t - 1)
    case Join(_) => before
    case Cancel(name) =>
      if Subscriber(name) in Live(others, t - 1) then before + multiset{Subscriber(name)} else before
  }

  /** How an act changes the live subscriptions and the waiting cancellations. */
  ghost predicate Acted(act: Act, wasLive: multiset<Chan>, wasWaiting: multiset<Chan>,
                        live: multiset<Chan>, waiting: multiset<Chan>) {
    match act
    case Join(name) => live == wasLive + multiset{Subscriber(name)} && waiting == wasWaiting
    case Cancel(name) =>
      var ch := Subscriber(name);
      && live == (if ch in wasLive then wasLive - multiset{ch} else wasLive)
      && (waiting == wasWaiting || (ch in wasLive && waiting == wasWaiting + multiset{ch}))
  }

  lemma ActCounts(others: nat -> Act, t: nat, wasLive: multiset<Chan>, wasWaiting: multiset<Chan>,
                  live: multiset<Chan>, waiting: multiset<Chan>)
    requires wasLive == Live(others, t) && Acted(others(t), wasLive, wasWaiting, live, waiting)
    ensures live == Live(others, t + 1) && WaitsByQuitting(others, wasWaiting, t, waiting, t + 1)
  {
    var quit := Quit(others, t);
    match others(t)
    case Join(_) =>
      assert Quit(others, t + 1) == quit;
    case Cancel(name) =>
      if Subscriber(name) in wasLive {
        assert Quit(others, t + 1) == quit + multiset{Subscriber(name)};
        OneMoreQuit(wasWaiting, quit, Subscriber(name));
      } else {
        assert Quit(others, t + 1) == quit;
      }
  }

  lemma OneMoreQuit(waiting: multiset<Chan>, quit: multiset<Chan>, ch: Chan)
    ensures waiting + quit <= waiting + (quit + multiset{ch})
    ensures (waiting + multiset{ch}) + quit <= waiting + (quit + multiset{ch})
  {
  }

  lemma WaitsChain(others: nat -> Act, w0: multiset<Chan>, c0: nat, w1: multiset<Chan>, c1: nat, w2: multiset<Chan>,
                   c2: nat)
    requires WaitsByQuitting(others, w0, c0, w1, c1) && WaitsByQuitting(others, w1, c1, w2, c2)
    ensures WaitsByQuitting(others, w0, c0, w2, c2)
  {
    forall c: Chan ensures w2[c] + Quit(others, c0)[c] <= w0[c] + Quit(others, c2)[c] {
      var a, b := w1 + Quit(others, c0), w0 + Quit(others, c1);
      assert a[c] <= b[c];
      var d, e := w2 + Quit(others, c1), w1 + Quit(others, c2);
      assert d[c] <= e[c];
    }
  }

  lemma PartDistinct(cs: seq<Case>, inbox: seq<Case>, bound: nat)
    requires Distinct(cs + inbox, bound)
    ensures Distinct(cs, bound)
  {
    assert forall j :: 0 <= j < |cs| ==> cs[j] == (cs + inbox)[j];
  }

  /** What a Send found: the cases with the value set, the log, who was waiting, and the time. */
  datatype Session = Session(start: seq<Case>, base: seq<Delivery>, value: Value, waiting: multiset<Chan>, clock: nat)

  /**
   Since the start, a channel has lost at most as many cases as cancellations of it were waiting
   then or have been made since; those still waiting have not cost a case yet.
   */
  ghost predicate LostByQuitting(s: Session, cs: seq<Case>, waiting: multiset<Chan>, others: nat -> Act, clock: nat) {
    && s.clock <= clock && Chans(cs) <= Chans(s.start)
    && Chans(s.start) + waiting + Quit(others, s.clock) <= Chans(cs) + s.waiting + Quit(others, clock)
  }

  /** Between two points in time cancellations start to wait only by being made. */
  ghost predicate WaitsByQuitting(others: nat -> Act, was: multiset<Chan>, from: nat, now: multiset<Chan>, clock: nat) {
    from <= clock && now + Quit(others, from) <= was + Quit(others, clock)
  }

  lemma LostMeanwhile(s: Session, cs: seq<Case>, others: nat -> Act,
                      was: multiset<Chan>, from: nat, now: multiset<Chan>, clock: nat)
    requires LostByQuitting(s, cs, was, others, from) && WaitsByQuitting(others, was, from, now, clock)
    ensures LostByQuitting(s, cs, now, others, clock)
  {
    forall c: Chan
      ensures Chans(s.start)[c] + now[c] + Quit(others, s.clock)[c]
              <= Chans(cs)[c] + s.waiting[c] + Quit(others, clock)[c]
    {
      var before, after := Chans(s.start) + was + Quit(others, s.clock), Chans(cs) + s.waiting + Quit(others, from);
      assert before[c] <= after[c];
      var waits, made := now + Quit(others, from), was + Quit(others, clock);
      assert waits[c] <= made[c];
    }
  }

  lemma LostByTaking(s: Session, cs: seq<Case>, waiting: multiset<Chan>, others: nat -> Act, clock: nat, i: nat)
    requires LostByQuitting(s, cs, waiting, others, clock) && i < |cs| && cs[i].chan in waiting
    ensures LostByQuitting(s, Delete(cs, i), waiting - multiset{cs[i].chan}, others, clock)
  {
    ChansDelete(cs, i);
    var ch, cs' := cs[i].chan, Delete(cs, i);
    var waiting' := waiting - multiset{ch};
    forall c: Chan
      ensures Chans(s.start)[c] + waiting'[c] + Quit(others, s.clock)[c]
              <= Chans(cs')[c] + s.waiting[c] + Quit(others, clock)[c]
    {
      var before := Chans(s.start) + waiting + Quit(others, s.clock);
      var after := Chans(cs) + s.waiting + Quit(others, clock);
      assert before[c] <= after[c];
    }
  }

  datatype Call =
    | Elapse                 // the next act of another goroutine
    | Leave(name: nat)       // a waiting cancellation gets the send lock
    | Publish(value: Value)  // Send

  class Feed {
    const others: nat -> Act         // what the other goroutines do, in order
    var clock: nat                   // how much of it has happened
    var sendCases: seq<Case>
    var inbox: seq<Case>
    var nextId: nat
    var waiting: multiset<Chan>      // cancellations that found nothing in the inbox
    var log: seq<Delivery>           // all that was ever delivered
    var live: multiset<Chan>         // subscriptions that have not been cancelled

    /** Holds whenever a lock is released, during a Send and between Sends. */
    ghost predicate Sound()
      reads this
    {
      && Consistent()
      && live == Live(others, clock)
    }

    /** The lists are in order and account for every subscription. */
    ghost predicate Consistent()
      reads this`sendCases, this`inbox, this`nextId, this`live, this`waiting
    {
      && CasesOk(sendCases)
      && (forall i :: 0 <= i < |inbox| ==> inbox[i].chan.Subscriber? && inbox[i].send == None)
      && Distinct(sendCases + inbox, nextId)
      && Accounted(sendCases, inbox, live, waiting)
    }

    constructor (others: nat -> Act)
      ensures Idle() && this.others == others && clock == 0
      ensures live == multiset{} && waiting == multiset{} && log == []
    {
      this.others, clock := others, 0;
      sendCases := [Case(RemoveSub, 0, None)];
      inbox, nextId, waiting, log, live := [], 1, multiset{}, [], multiset{};
    }

    method Subscribe(ch: Chan)
      requires Consistent() && ch.Subscriber?
      modifies this`inbox, this`nextId, this`live
      ensures Consistent() && live == old(live) + multiset{ch}
      ensures inbox == old(inbox) + [Case(ch, old(nextId), None)]
    {
      var cas := Case(ch, nextId, None);
      AccountJoined(sendCases, inbox, live, waiting, cas);
      assert sendCases + (inbox + [cas]) == (sendCases + inbox) + [cas];
      inbox, nextId, live := inbox + [cas], nextId + 1, live + multiset{ch};
    }

    /** The first half of a cancellation, under the inbox lock. */
    method StartRemove(ch: Chan) returns (done: bool)
      requires Consistent() && ch in live && ch.Subscriber?
      modifies this`inbox, this`waiting, this`live
      ensures Consistent() && live == old(live) - multiset{ch}
      ensures done ==> waiting == old(waiting) && Chans(inbox) == old(Chans(inbox)) - multiset{ch}
      ensures !done ==> waiting == old(waiting) + multiset{ch} && inbox == old(inbox)
    {
      var index := Find(inbox, ch);
      done := index != -1;
      if done {
        Cancelled(sendCases, inbox, live, waiting, index, nextId);
        inbox := Delete(inbox, index);
      } else {
        AccountCommitted(sendCases, inbox, live, waiting, ch);
        waiting := waiting + multiset{ch};
      }
      live := live - multiset{ch};
    }

    /** The second half when no Send is in progress: find cannot miss. */
    method FinishRemove(ch: Chan)
      requires Sound() && ch in waiting
      modifies this`sendCases, this`waiting
      ensures Sound() && waiting == old(waiting) - multiset{ch}
      ensures Chans(sendCases) == old(Chans(sendCases)) - multiset{ch}
      ensures forall i :: 0 <= i < |sendCases| ==> sendCases[i] in old(sendCases)
    {
      var _ := TakeOut(ch);
    }

    /** Takes the first case on a waiting channel out of sendCases. */
    method TakeOut(ch: Chan) returns (index: nat)
      requires Sound() && ch in waiting
      modifies this`sendCases, this`waiting
      ensures Sound() && waiting == old(waiting) - multiset{ch}
      ensures 1 <= index < |old(sendCases)| && old(sendCases)[index].chan == ch
      ensures sendCases == Delete(old(sendCases), index)
      ensures Chans(sendCases) == old(Chans(sendCases)) - multiset{ch}
    {
      index := FindWaiting(sendCases, waiting, ch);
      TakenOut(sendCases, inbox, live, waiting, index, nextId);
      sendCases := Delete(sendCases, index);
      waiting := waiting - multiset{ch};
    }

    /** The next act of another goroutine. */
    method Tick()
      requires Sound()
      modifies this`inbox, this`nextId, this`waiting, this`live, this`clock
      ensures Sound() && clock == old(clock) + 1
      ensures WaitsByQuitting(others, old(waiting), old(clock), waiting, clock)
    {
      ghost var wasWaiting := waiting;
      PerformNext();
      Advance(wasWaiting);
    }

    method Advance(ghost wasWaiting: multiset<Chan>)
      requires live == Live(others, clock + 1) && WaitsByQuitting(others, wasWaiting, clock, waiting, clock + 1)
      modifies this`clock
      ensures live == Live(others, clock) && clock == old(clock) + 1
      ensures WaitsByQuitting(others, wasWaiting, old(clock), waiting, clock)
    {
      clock := clock + 1;
    }

    method PerformNext()
      requires Sound()
      modifies this`inbox, this`nextId, this`waiting, this`live
      ensures Consistent() && live == Live(others, clock + 1)
      ensures WaitsByQuitting(others, old(waiting), clock, waiting, clock + 1)
    {
      ghost var wasLive, wasWaiting := live, waiting;
      Perform(others(clock));
      ActCounts(others, clock, wasLive, wasWaiting, live, waiting);
    }

    method Perform(act: Act)
      requires Consistent()
      modifies this`inbox, this`nextId, this`waiting, this`live
      ensures Consistent() && Acted(act, old(live), old(waiting), live, waiting)
    {
      match act
      case Join(name) =>
        Subscribe(Subscriber(name));
      case Cancel(name) =>
        CancelOne(Subscriber(name));
    }

    /** A cancellation, if there is a subscription left to cancel. */
    method CancelOne(ch: Chan)
      requires Consistent() && ch.Subscriber?
      modifies this`inbox, this`waiting, this`live
      ensures Consistent() && live == if ch in old(live) then old(live) - multiset{ch} else old(live)
      ensures waiting == old(waiting) || (ch in old(live) && waiting == old(waiting) + multiset{ch})
    {
      if ch in live {
        var _ := StartRemove(ch);
      }
    }

    /** Other goroutines: any number of subscriptions and cancellations. */
    method Interfere()
      requires Sound()
      modifies this`inbox, this`nextId, this`waiting, this`live, this`clock
      ensures Sound() && WaitsByQuitting(others, old(waiting), old(clock), waiting, clock)
    {
      var k: nat := *;
      while k > 0
        invariant Sound() && WaitsByQuitting(others, old(waiting), old(clock), waiting, clock)
        decreases k
      {
        ghost var w, c := waiting, clock;
        Tick();
        WaitsChain(others, old(waiting), old(clock), w, c, waiting, clock);
        k := k - 1;
      }
    }

    /** No value is left set in any case. */
    ghost predicate Idle()
      reads this
    {
      Sound() && forall i :: 0 <= i < |sendCases| ==> sendCases[i].send == None
    }

    method SetSend(v: Option<Value>)
      requires Sound()
      modifies this`sendCases
      ensures Sound() && sendCases == WithSend(old(sendCases), v) && Chans(sendCases) == old(Chans(sendCases))
    {
      WithSendKeeps(sendCases, inbox, v, nextId);
      sendCases := SetAll(sendCases, v);
    }

    /** What a Send maintains; news is what it has delivered since its start. */
    ghost predicate InSend(n: nat, s: Session, news: seq<Delivery>)
      reads this
    {
      && Sound() && Remaining(sendCases, s.start, s.value)
      && Serving(sendCases, n, news) && Genuine(s.start, news, s.value) && log == s.base + news
      && LostByQuitting(s, sendCases, waiting, others, clock)
    }

    method Merge()
      requires Idle()
      modifies this`sendCases, this`inbox
      ensures Idle() && sendCases == old(sendCases + inbox) && inbox == []
    {
      ChansConcat(sendCases, inbox);
      assert sendCases + inbox == (sendCases + inbox) + [];
      sendCases, inbox := sendCases + inbox, [];
    }

    /** Takes in the inbox and sets the value on every case. */
    method Begin(value: Value)
      requires Idle()
      modifies this`sendCases, this`inbox
      ensures sendCases == WithSend(old(sendCases + inbox), Some(value))
      ensures InSend(|sendCases|, Session(sendCases, log, value, waiting, clock), [])
      ensures Chans(sendCases) == Chans(old(sendCases + inbox))
    {
      Merge();
      SetSend(Some(value));
    }

    /** The value arrives on the channel of case i, which leaves the active prefix. */
    method Deliver(i: nat, n: nat, sent: Value, ghost s: Session, ghost news: seq<Delivery>)
        returns (ghost news': seq<Delivery>)
      requires InSend(n, s, news) && sent == s.value && 1 <= i < n
      modifies this`sendCases, this`log
      ensures InSend(n - 1, s, news') && sendCases == Deactivate(old(sendCases), n, i)
      ensures news' == news + [Delivery(old(sendCases)[i].chan, old(sendCases)[i].id, sent)]
    {
      var d := Delivery(sendCases[i].chan, sendCases[i].id, sent);
      news' := news + [d];
      PartDistinct(sendCases, inbox, nextId);
      DeactivateKeeps(sendCases, n, s.start, news, sent, i, nextId);
      ChansDeactivate(sendCases, n, i);
      SwapDistinct(sendCases, inbox, n, i, nextId);
      sendCases := Deactivate(sendCases, n, i);
      log := log + [d];
      assert log == s.base + news';
    }

    /** Time passes while a Send is under way. */
    method Meanwhile(ghost n: nat, ghost s: Session, ghost news: seq<Delivery>)
      requires InSend(n, s, news)
      modifies this`inbox, this`nextId, this`waiting, this`live, this`clock
      ensures InSend(n, s, news)
    {
      ghost var w, c := waiting, clock;
      Interfere();
      LostMeanwhile(s, sendCases, others, w, c, waiting, clock);
    }

    /** The fast path: tries every active case once, without blocking. */
    method TryAll(len: nat, value: Value, ghost s: Session, ghost news: seq<Delivery>)
        returns (n: nat, sent: nat, ghost news': seq<Delivery>)
      requires InSend(len, s, news) && value == s.value
      modifies this
      ensures InSend(n, s, news') && |news'| == |news| + sent
      ensures n + sent == len && |sendCases| == |old(sendCases)|
    {
      n, sent, news' := len, 0, news;
      var i := FIRST_SUB_SEND_CASE;
      while i < n
        invariant 1 <= i <= n && n + sent == len && |sendCases| == |old(sendCases)|
        invariant InSend(n, s, news') && |news'| == |news| + sent
        decreases n - i
      {
        Meanwhile(n, s, news');
        if * {
          news' := Deliver(i, n, value, s, news');
          sent := sent + 1;
          n := n - 1;
        } else {
          i := i + 1;
        }
      }
    }

    /** A cancellation is received while the Send is blocked: the first case of its channel is taken out. */
    method Drop(len: nat, ghost s: Session, ghost news: seq<Delivery>) returns (n: nat, ch: Chan, index: nat)
      requires InSend(len, s, news) && waiting != multiset{}
      modifies this`sendCases, this`waiting
      ensures InSend(n, s, news) && n == if index < len then len - 1 else len
      ensures ch in old(waiting) && waiting == old(waiting) - multiset{ch}
      ensures index < |old(sendCases)| && old(sendCases)[index].chan == ch && sendCases == Delete(old(sendCases), index)
    {
      ch :| ch in waiting;
      PartDistinct(sendCases, inbox, nextId);
      ghost var cs, w := sendCases, waiting;
      index := TakeOut(ch);
      DeleteKeeps(cs, len, s.start, news, s.value, index, nextId);
      LostByTaking(s, cs, w, others, clock, index);
      n := if index < len then len - 1 else len;
    }

    /** Blocks until a subscriber takes the value or a cancellation comes in. */
    method Select(len: nat, ghost s: Session, ghost news: seq<Delivery>)
        returns (n: nat, sent: nat, ghost news': seq<Delivery>)
      requires InSend(len, s, news) && len > FIRST_SUB_SEND_CASE
      modifies this
      ensures InSend(n, s, news') && |news'| == |news| + sent
      ensures n <= len && |sendCases| <= |old(sendCases)| && n + |sendCases| < len + |old(sendCases)|
    {
      Meanwhile(len, s, news);
      var cancelled: bool := *;
      if cancelled && waiting != multiset{} {
        var ch, index;
        n, ch, index := Drop(len, s, news);
        sent, news' := 0, news;
      } else {
        news' := DeliverAny(len, s, news);
        n, sent := len - 1, 1;
      }
    }

    /** One of the active cases, whichever it is, takes the value. */
    method DeliverAny(len: nat, ghost s: Session, ghost news: seq<Delivery>) returns (ghost news': seq<Delivery>)
      requires InSend(len, s, news) && len > FIRST_SUB_SEND_CASE
      modifies this`sendCases, this`log
      ensures InSend(len - 1, s, news') && |news'| == |news| + 1 && |sendCases| == |old(sendCases)|
    {
      var chosen: nat :| 1 <= chosen < len;
      news' := Deliver(chosen, len, sendCases[chosen].send.value, s, news);
    }

    /** Serves all cases; every round of the loop shortens the list or its active prefix. */
    method ServeAll(value: Value, ghost s: Session) returns (nsent: nat, ghost news: seq<Delivery>)
      requires InSend(|sendCases|, s, []) && value == s.value
      modifies this
      ensures InSend(FIRST_SUB_SEND_CASE, s, news) && nsent == |news|
    {
      news := [];
      nsent := 0;
      var n: nat := |sendCases|;
      while true
        invariant InSend(n, s, news) && nsent == |news|
        decreases |sendCases| + n
      {
        var sent;
        n, sent, news := TryAll(n, value, s, news);
        nsent := nsent + sent;
        if n == FIRST_SUB_SEND_CASE { break; }
        n, sent, news := Select(n, s, news);
        nsent := nsent + sent;
      }
    }

    /**
     Delivers to everyone subscribed at the start.  However sends, blocking, subscriptions and
     cancellations interleave, every case that stays got the value exactly once, no case got it
     twice, nothing else was delivered, and nsent counts the deliveries.  A channel loses no more
     cases than cancellations of it were waiting at the start or were made during the call.
     */
    method Send(value: Value) returns (nsent: nat)
      requires Idle()
      modifies this
      ensures Idle()
      ensures old(log) <= log && nsent == |log| - |old(log)|
      ensures Genuine(old(sendCases + inbox), log[|old(log)|..], value)
      ensures forall i :: 1 <= i < |sendCases| ==> Served(log[|old(log)|..], sendCases[i].id)
      ensures forall i :: 1 <= i < |sendCases| ==> sendCases[i] in old(sendCases + inbox)
      ensures LostByQuitting(Session(old(sendCases + inbox), old(log), value, old(waiting), old(clock)),
                             sendCases, waiting, others, clock)
    {
      Begin(value);
      ghost var s := Session(sendCases, log, value, waiting, clock);
      ghost var news;
      nsent, news := ServeAll(value, s);
      assert log[|old(log)|..] == news;
      End(old(sendCases + inbox), s, news);
    }

    /** Forgets the value. */
    method End(ghost before: seq<Case>, ghost s: Session, ghost news: seq<Delivery>)
      requires InSend(FIRST_SUB_SEND_CASE, s, news) && s.start == WithSend(before, Some(s.value))
      requires Chans(s.start) == Chans(before) && forall i :: 0 <= i < |before| ==> before[i].send == None
      modifies this`sendCases
      ensures Idle() && Genuine(before, news, s.value)
      ensures forall i :: 1 <= i < |sendCases| ==> Served(news, sendCases[i].id) && sendCases[i] in before
      ensures LostByQuitting(s.(start := before), sendCases, waiting, others, clock)
    {
      Finished(before, sendCases, news, s.value);
      SetSend(None);
    }

    /** Any sequence of calls: the feed stays sound and the counts returned by Send are the deliveries made. */
    method Run(calls: seq<Call>) returns (total: nat)
      requires Idle()
      modifies this
      ensures Idle() && old(log) <= log && |log| == |old(log)| + total
    {
      total := 0;
      for i := 0 to |calls|
        invariant Idle() && old(log) <= log && |log| == |old(log)| + total
      {
        match calls[i]
        case Elapse =>
          Tick();
        case Leave(name) =>
          if Subscriber(name) in waiting {
            FinishRemove(Subscriber(name));
          }
        case Publish(value) =>
          var n := Send(value);
          total := total + n;
      }
    }
  }
}
