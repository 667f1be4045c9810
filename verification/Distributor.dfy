/**
 The request distributor of les/distributor.go: a queue in creation order, resends included, and
 the choice of the next request together with the peer it goes to.
 */
module Distributor {
  import opened Types

  type Peer = nat

  const DIST_MAX_WAIT: nat := 10_000_000   // ten milliseconds, in nanoseconds

  /** How the wait for a request ended: a peer got it, or its channel was closed without one. */
  datatype Outcome = Sent(peer: Peer) | Closed

  /** A request goes by the number it gets when it is first queued. */
  type Request = nat

  /** What the peers and the callbacks of the requests answer during one call. */
  datatype Env = Env(room: Peer -> bool, serves: (Request, Peer) -> bool, wait: (Request, Peer) -> nat)

  predicate Able(env: Env, peers: set<Peer>, r: Request, p: Peer) {
    p in peers && env.room(p) && env.serves(r, p)
  }

  /** The peer can serve one of the first n requests. */
  ghost predicate AbleBefore(env: Env, peers: set<Peer>, q: seq<Request>, n: nat, p: Peer) {
    exists j :: 0 <= j < n && j < |q| && Able(env, peers, q[j], p)
  }

  /** Some registered peer with room can serve the request. */
  ghost predicate Servable(env: Env, peers: set<Peer>, r: Request) {
    exists p :: Able(env, peers, r, p)
  }

  datatype Choice = Choice(peer: Peer, at: nat)

  /** The request is the first in the queue that the peer can serve. */
  ghost predicate FirstFor(env: Env, peers: set<Peer>, q: seq<Request>, c: Choice) {
    c.at < |q| && Able(env, peers, q[c.at], c.peer) && !AbleBefore(env, peers, q, c.at, c.peer)
  }

  /** What nextRequest has collected: peers done with, candidates to send at once, the shortest wait. */
  datatype Found = Found(checked: set<Peer>, sel: set<Choice>, best: Option<Choice>, bestWait: nat)

  /** How far the queue has been looked at for a peer, when i requests are done and those of `done` with the next. */
  function Limit(done: set<Peer>, i: nat, p: Peer): nat {
    if p in done then i + 1 else i
  }

  ghost predicate Candidate(env: Env, peers: set<Peer>, q: seq<Request>, done: set<Peer>, i: nat, c: Choice) {
    FirstFor(env, peers, q, c) && c.at < Limit(done, i, c.peer)
  }

  ghost predicate FoundOk(env: Env, peers: set<Peer>, q: seq<Request>, done: set<Peer>, i: nat, f: Found) {
    && (forall p :: p in f.checked <==> AbleBefore(env, peers, q, Limit(done, i, p), p))
    && (forall c :: c in f.sel <==> Candidate(env, peers, q, done, i, c) && env.wait(q[c.at], c.peer) == 0)
    && (f.best.None? ==> f.bestWait == 0)
    && (f.best.Some? ==>
          && Candidate(env, peers, q, done, i, f.best.value)
          && env.wait(q[f.best.value.at], f.best.value.peer) == f.bestWait > 0)
    && (forall c :: Candidate(env, peers, q, done, i, c) && env.wait(q[c.at], c.peer) > 0 ==>
          f.best.Some? && f.bestWait <= env.wait(q[c.at], c.peer))
  }

  /** One peer is asked about one request. */
  method Ask(env: Env, peers: set<Peer>, q: seq<Request>, ghost done: set<Peer>, i: nat, f: Found, p: Peer)
      returns (f': Found, can: bool)
    requires i < |q| && p in peers && p !in done && FoundOk(env, peers, q, done, i, f)
    ensures FoundOk(env, peers, q, done + {p}, i, f')
    ensures can <==> FirstFor(env, peers, q, Choice(p, i))
  {
    can := p !in f.checked && env.room(p) && env.serves(q[i], p);
    f' := f;
    if can {
      var wait := env.wait(q[i], p);
      if wait == 0 {
        f' := f'.(sel := f'.sel + {Choice(p, i)});
      } else if f.best == None || wait < f.bestWait {
        f' := f'.(best := Some(Choice(p, i)), bestWait := wait);
      }
      f' := f'.(checked := f'.checked + {p});
    }
    AskOk(env, peers, q, done, i, p);
  }

  lemma AskOk(env: Env, peers: set<Peer>, q: seq<Request>, done: set<Peer>, i: nat, p: Peer)
    requires i < |q| && p in peers && p !in done
    ensures forall c :: Candidate(env, peers, q, done + {p}, i, c) <==>
                        Candidate(env, peers, q, done, i, c) || (c == Choice(p, i) && FirstFor(env, peers, q, c))
    ensures forall o :: AbleBefore(env, peers, q, Limit(done + {p}, i, o), o) <==>
                        AbleBefore(env, peers, q, Limit(done, i, o), o) || (o == p && Able(env, peers, q[i], p))
  {
  }

  lemma AllAsked(env: Env, peers: set<Peer>, q: seq<Request>, i: nat, f: Found)
    requires FoundOk(env, peers, q, peers, i, f)
    ensures FoundOk(env, peers, q, {}, i + 1, f)
  {
    assert forall c :: Candidate(env, peers, q, peers, i, c) <==> Candidate(env, peers, q, {}, i + 1, c);
    assert forall p :: AbleBefore(env, peers, q, Limit(peers, i, p), p) <==>
             AbleBefore(env, peers, q, Limit({}, i + 1, p), p);
  }

  /** All peers, in any order, are asked about one request. */
  method AskAll(env: Env, peers: set<Peer>, q: seq<Request>, i: nat, f: Found) returns (f': Found, canSend: bool)
    requires i < |q| && FoundOk(env, peers, q, {}, i, f)
    ensures FoundOk(env, peers, q, {}, i + 1, f')
    ensures canSend <==> exists p :: FirstFor(env, peers, q, Choice(p, i))
  {
    f', canSend := f, false;
    var todo := peers;
    assert peers - todo == {};
    while todo != {}
      invariant todo <= peers && FoundOk(env, peers, q, peers - todo, i, f')
      invariant canSend <==> exists p :: p in peers - todo && FirstFor(env, peers, q, Choice(p, i))
      decreases todo
    {
      var p :| p in todo;
      var can;
      f', can := Ask(env, peers, q, peers - todo, i, f', p);
      assert peers - (todo - {p}) == (peers - todo) + {p};
      todo := todo - {p};
      canSend := canSend || can;
    }
    assert peers - todo == peers;
    AllAsked(env, peers, q, i, f');
  }

  // ---- The queue ----

  /** Strictly ascending, so in creation order and without repetition. */
  ghost predicate Sorted(q: seq<Request>) {
    forall i, j :: 0 <= i < j < |q| ==> q[i] < q[j]
  }

  function InsertAt(q: seq<Request>, at: nat, r: Request): seq<Request>
    requires at <= |q|
  {
    q[..at] + [r] + q[at..]
  }

  function RemoveAt(q: seq<Request>, at: nat): seq<Request>
    requires at < |q|
  {
    q[..at] + q[at + 1..]
  }

  lemma InsertSorted(q: seq<Request>, at: nat, r: Request)
    requires Sorted(q) && at <= |q|
    requires forall i :: 0 <= i < at ==> q[i] < r
    requires forall i :: at <= i < |q| ==> r < q[i]
    ensures Sorted(InsertAt(q, at, r))
    ensures forall o :: o in InsertAt(q, at, r) <==> o in q || o == r
  {
    var q' := InsertAt(q, at, r);
    assert forall i :: 0 <= i < |q'| ==> q'[i] == if i < at then q[i] else if i == at then r else q[i - 1];
    forall o | o in q || o == r ensures o in q' {
      if o != r {
        var i :| 0 <= i < |q| && q[i] == o;
        assert q'[if i < at then i else i + 1] == o;
      } else {
        assert q'[at] == r;
      }
    }
  }

  lemma RemoveSorted(q: seq<Request>, at: nat)
    requires Sorted(q) && at < |q|
    ensures Sorted(RemoveAt(q, at))
    ensures forall o :: o in RemoveAt(q, at) <==> o in q && o != q[at]
  {
    var q' := RemoveAt(q, at);
    assert forall i :: 0 <= i < |q'| ==> q'[i] == if i < at then q[i] else q[i + 1];
    forall o | o in q && o != q[at] ensures o in q' {
      var i :| 0 <= i < |q| && q[i] == o;
      assert q'[if i < at then i else i - 1] == o;
    }
  }

  /** Where a request belongs: after all smaller numbers and before all greater ones. */
  method Position(q: seq<Request>, r: Request) returns (at: nat)
    requires Sorted(q) && r !in q
    ensures at <= |q|
    ensures forall i :: 0 <= i < at ==> q[i] < r
    ensures forall i :: at <= i < |q| ==> r < q[i]
    ensures (forall o :: o in q ==> o < r) ==> at == |q|
  {
    at := |q|;
    if at == 0 || r > q[at - 1] { return; }
    at := 0;
    while q[at] < r
      invariant at < |q|
      invariant forall i :: 0 <= i < at ==> q[i] < r
    {
      at := at + 1;
    }
    assert q[at] in q && q[at] != r;
  }

  /** The first k requests cannot be served, the next one can unless all have been looked at. */
  ghost predicate DroppedOk(env: Env, peers: set<Peer>, q: seq<Request>, k: nat, i: nat) {
    && k <= i <= |q|
    && (forall j :: 0 <= j < k ==> !Servable(env, peers, q[j]))
    && (k < i ==> Servable(env, peers, q[k]))
  }

  /** What asking about request i told decides whether it can be served, if all before it were dropped. */
  lemma FrontServable(env: Env, peers: set<Peer>, q: seq<Request>, i: nat, canSend: bool)
    requires DroppedOk(env, peers, q, i, i) && i < |q|
    requires canSend <==> exists p :: FirstFor(env, peers, q, Choice(p, i))
    ensures canSend <==> Servable(env, peers, q[i])
  {
    if Servable(env, peers, q[i]) {
      var p :| Able(env, peers, q[i], p);
      assert !AbleBefore(env, peers, q, i, p);
      assert FirstFor(env, peers, q, Choice(p, i));
    }
  }

  /** If someone can serve the front of the queue, there is a candidate. */
  lemma SomeCandidate(env: Env, peers: set<Peer>, q: seq<Request>, k: nat, f: Found)
    requires FoundOk(env, peers, q, {}, |q|, f) && DroppedOk(env, peers, q, k, |q|) && k < |q|
    ensures f.sel != {} || f.best.Some?
  {
    var p :| Able(env, peers, q[k], p);
    assert !AbleBefore(env, peers, q, k, p);
    assert Candidate(env, peers, q, {}, |q|, Choice(p, k));
    assert Choice(p, k) in f.sel || env.wait(q[k], p) > 0;
  }

  lemma SeenAll(env: Env, peers: set<Peer>, q: seq<Request>, k: nat, i: nat)
    requires DroppedOk(env, peers, q, k, i) && (i < |q| ==> peers == {} && q[i] != q[k])
    ensures i == |q|
  {
    if k < i { var p :| Able(env, peers, q[k], p); }
  }

  lemma NothingFound(env: Env, peers: set<Peer>, q: seq<Request>)
    ensures FoundOk(env, peers, q, {}, 0, Found({}, {}, None, 0))
  {
  }

  /** A candidate that can be sent to at once, or, if there is none, one with the shortest wait. */
  ghost predicate Best(env: Env, peers: set<Peer>, q: seq<Request>, c: Choice, wait: nat) {
    && FirstFor(env, peers, q, c) && env.wait(q[c.at], c.peer) == wait
    && forall d :: FirstFor(env, peers, q, d) ==> wait <= env.wait(q[d.at], d.peer)
  }

  lemma BestFound(env: Env, peers: set<Peer>, q: seq<Request>, f: Found)
    requires FoundOk(env, peers, q, {}, |q|, f)
    ensures forall c :: c in f.sel ==> Best(env, peers, q, c, 0)
    ensures f.sel == {} && f.best.Some? ==> f.bestWait > 0 && Best(env, peers, q, f.best.value, f.bestWait)
  {
    forall c | c in f.sel ensures Best(env, peers, q, c, 0) {
      assert Candidate(env, peers, q, {}, |q|, c);
    }
    if f.sel == {} && f.best.Some? {
      forall d | FirstFor(env, peers, q, d) ensures f.bestWait <= env.wait(q[d.at], d.peer) {
        assert Candidate(env, peers, q, {}, |q|, d);
      }
    }
  }

  method Pick(env: Env, peers: set<Peer>, q: seq<Request>, k: nat, f: Found) returns (choice: Option<Choice>, wait: nat)
    requires FoundOk(env, peers, q, {}, |q|, f) && DroppedOk(env, peers, q, k, |q|)
    ensures choice.Some? ==> k <= choice.value.at && Best(env, peers, q, choice.value, wait)
    ensures choice.None? <==> k == |q|
    ensures choice.None? ==> wait == 0
  {
    BestFound(env, peers, q, f);
    if k < |q| {
      SomeCandidate(env, peers, q, k, f);
    } else {
      NoCandidate(env, peers, q);
    }
    if f.sel != {} {
      var c :| c in f.sel;
      choice, wait := Some(c), 0;
    } else {
      choice, wait := f.best, f.bestWait;
    }
  }

  /** Every peer that can serve anything has to be waited for at least so long. */
  ghost predicate AllWait(env: Env, peers: set<Peer>, q: seq<Request>, wait: nat) {
    forall c :: FirstFor(env, peers, q, c) ==> 0 < wait <= env.wait(q[c.at], c.peer)
  }

  lemma SuffixWaits(env: Env, peers: set<Peer>, q: seq<Request>, k: nat, wait: nat)
    requires DroppedOk(env, peers, q, k, |q|) && AllWait(env, peers, q, wait)
    ensures AllWait(env, peers, q[k..], wait)
  {
    var rest := q[k..];
    forall c | FirstFor(env, peers, rest, c) ensures 0 < wait <= env.wait(rest[c.at], c.peer) {
      var d := Choice(c.peer, c.at + k);
      assert rest[c.at] == q[d.at];
      forall j | 0 <= j < d.at ensures !Able(env, peers, q[j], c.peer) {
        if j < k {
          assert !Servable(env, peers, q[j]);
        } else {
          assert rest[j - k] == q[j];
        }
      }
      assert FirstFor(env, peers, q, d);
    }
  }

  lemma NoCandidate(env: Env, peers: set<Peer>, q: seq<Request>)
    requires DroppedOk(env, peers, q, |q|, |q|)
    ensures forall c :: !FirstFor(env, peers, q, c)
  {
  }

  function Close(log: Log, r: Request): Log {
    log[r := Past(log, r) + [Closed]]
  }

  /** The channels of the first k requests are closed without a peer. */
  function AllClosed(log: Log, q: seq<Request>, k: nat): Log
    requires k <= |q|
    decreases k
  {
    if k == 0 then log else AllClosed(Close(log, q[0]), q[1..], k - 1)
  }

  type Log = map<Request, seq<Outcome>>

  function Past(log: Log, r: Request): seq<Outcome> {
    if r in log then log[r] else []
  }

  /** Every time a request was queued there has been one outcome, or there is one to come. */
  ghost predicate Accounted(q: seq<Request>, log: Log, times: map<Request, nat>) {
    forall r :: (if r in times then times[r] else 0) == |Past(log, r)| + if r in q then 1 else 0
  }

  /**
   Why a request leaves the queue in one round: it goes to a peer that is not to be waited for and
   for which it comes first, or it is in front, like all before it, and nobody can serve them.
   */
  ghost predicate Due(env: Env, peers: set<Peer>, q: seq<Request>, r: Request, o: Outcome) {
    match o
    case Sent(p) => exists at: nat :: at < |q| && q[at] == r && Best(env, peers, q, Choice(p, at), 0)
    case Closed => exists at: nat :: at < |q| && q[at] == r && forall j :: 0 <= j <= at ==> !Servable(env, peers, q[j])
  }

  /** The request has left in one of the rounds, which found these queues, with one outcome. */
  ghost predicate Left(envs: nat -> Env, peers: set<Peer>, queues: seq<seq<Request>>, was: Log, now: Log, r: Request) {
    exists i: nat, o {:trigger Due(envs(i), peers, queues[i], r, o)} ::
      i < |queues| && Past(now, r) == Past(was, r) + [o] && Due(envs(i), peers, queues[i], r, o)
  }

  ghost predicate FateOf(envs: nat -> Env, peers: set<Peer>, queues: seq<seq<Request>>, q: seq<Request>, was: Log,
                         left: seq<Request>, now: Log, r: Request) {
    if r in q && r !in left then Left(envs, peers, queues, was, now, r)
    else Past(now, r) == Past(was, r) && (r in left ==> r in q)
  }

  /** What became of every request in some rounds. */
  ghost predicate Fates(envs: nat -> Env, peers: set<Peer>, queues: seq<seq<Request>>, q: seq<Request>, was: Log,
                        left: seq<Request>, now: Log) {
    forall r {:trigger FateOf(envs, peers, queues, q, was, left, now, r)} ::
      FateOf(envs, peers, queues, q, was, left, now, r)
  }

  lemma {:induction false} ClosedOnce(log: Log, q: seq<Request>, k: nat, r: Request)
    requires Sorted(q) && k <= |q|
    ensures Past(AllClosed(log, q, k), r) == Past(log, r) + if r in q[..k] then [Closed] else []
    decreases k
  {
    if k > 0 {
      ClosedOnce(Close(log, q[0]), q[1..], k - 1, r);
      assert q[..k] == [q[0]] + q[1..][..k - 1];
      assert q[0] !in q[1..][..k - 1];
    }
  }

  /** What one round leaves in the queue. */
  function Rest(q: seq<Request>, k: nat, sent: Option<Choice>): seq<Request>
    requires k <= |q| && (sent.Some? ==> k <= sent.value.at < |q|)
  {
    if sent.Some? then RemoveAt(q[k..], sent.value.at - k) else q[k..]
  }

  function Logged(log: Log, q: seq<Request>, k: nat, sent: Option<Choice>): Log
    requires k <= |q| && (sent.Some? ==> sent.value.at < |q|)
  {
    var closed := AllClosed(log, q, k);
    if sent.None? then closed
    else var r := q[sent.value.at]; closed[r := Past(closed, r) + [Sent(sent.value.peer)]]
  }

  lemma RestHolds(q: seq<Request>, k: nat, sent: Option<Choice>, r: Request)
    requires Sorted(q) && k <= |q| && (sent.Some? ==> k <= sent.value.at < |q|)
    ensures r in Rest(q, k, sent) <==> r in q && r !in q[..k] && (sent.Some? ==> r != q[sent.value.at])
  {
    assert q == q[..k] + q[k..];
    if sent.Some? {
      RemoveSorted(q[k..], sent.value.at - k);
    }
  }

  /** A request of the queue stays as it is, or leaves with one outcome, which is due. */
  lemma LeavesWhenDue(env: Env, peers: set<Peer>, q: seq<Request>, log: Log, k: nat, sent: Option<Choice>, r: Request)
      returns (o: Outcome)
    requires Sorted(q) && DroppedOk(env, peers, q, k, |q|)
    requires sent.Some? ==> k <= sent.value.at && Best(env, peers, q, sent.value, 0)
    ensures var stays := r !in q || r in Rest(q, k, sent);
            && Past(Logged(log, q, k, sent), r) == Past(log, r) + (if stays then [] else [o])
            && (!stays ==> Due(env, peers, q, r, o)) && (r in Rest(q, k, sent) ==> r in q)
  {
    LoggedOnce(log, q, k, sent, r);
    RestHolds(q, k, sent, r);
    o := Closed;
    if r in q[..k] {
      ClosedWhenDue(env, peers, q, k, r);
    } else if sent.Some? && r == q[sent.value.at] {
      o := Sent(sent.value.peer);
      assert Due(env, peers, q, r, o);
    }
  }

  lemma ClosedWhenDue(env: Env, peers: set<Peer>, q: seq<Request>, k: nat, r: Request)
    requires DroppedOk(env, peers, q, k, |q|) && r in q[..k]
    ensures Due(env, peers, q, r, Closed)
  {
    var at :| 0 <= at < |q[..k]| && q[..k][at] == r;
    assert q[at] == r;
  }

  lemma LoggedOnce(log: Log, q: seq<Request>, k: nat, sent: Option<Choice>, r: Request)
    requires Sorted(q) && k <= |q| && (sent.Some? ==> k <= sent.value.at < |q|)
    ensures Past(Logged(log, q, k, sent), r) ==
              Past(log, r) + if r in q[..k] then [Closed]
                             else if sent.Some? && r == q[sent.value.at] then [Sent(sent.value.peer)] else []
    ensures sent.Some? ==> q[sent.value.at] in q && q[sent.value.at] !in q[..k]
  {
    ClosedOnce(log, q, k, r);
  }

  /** If nothing can be sent at once, everybody has to be waited for. */
  lemma NoneSent(env: Env, peers: set<Peer>, q: seq<Request>, k: nat, choice: Option<Choice>, wait: nat)
    requires DroppedOk(env, peers, q, k, |q|) && (choice.None? <==> k == |q|)
    requires if choice.Some? then wait > 0 && Best(env, peers, q, choice.value, wait) else wait == 0
    ensures AllWait(env, peers, q[k..], wait) && (q[k..] != [] <==> wait > 0)
  {
    if choice.None? {
      NoCandidate(env, peers, q[k..]);
    } else {
      SuffixWaits(env, peers, q, k, wait);
    }
  }

  /** One more round, which found the queue the others had left. */
  lemma OneRound(envs: nat -> Env, peers: set<Peer>, queues: seq<seq<Request>>, q: seq<Request>, was: Log,
                 left: seq<Request>, now: Log, k: nat, sent: Option<Choice>)
    requires Fates(envs, peers, queues, q, was, left, now) && Sorted(left)
    requires DroppedOk(envs(|queues|), peers, left, k, |left|)
    requires sent.Some? ==> k <= sent.value.at && Best(envs(|queues|), peers, left, sent.value, 0)
    ensures Fates(envs, peers, queues + [left], q, was, Rest(left, k, sent), Logged(now, left, k, sent))
  {
    var more, rest, log := queues + [left], Rest(left, k, sent), Logged(now, left, k, sent);
    forall r ensures FateOf(envs, peers, more, q, was, rest, log, r) {
      assert FateOf(envs, peers, queues, q, was, left, now, r);
      var o := LeavesWhenDue(envs(|queues|), peers, left, now, k, sent, r);
      if r in q && r !in left {
        LeftBefore(envs, peers, queues, left, was, now, log, r);
      } else if r in left && r !in rest {
        assert Due(envs(|queues|), peers, more[|queues|], r, o);
      }
    }
  }

  lemma LeftBefore(envs: nat -> Env, peers: set<Peer>, queues: seq<seq<Request>>, next: seq<Request>, was: Log,
                   now: Log, later: Log, r: Request)
    requires Left(envs, peers, queues, was, now, r) && Past(later, r) == Past(now, r)
    ensures Left(envs, peers, queues + [next], was, later, r)
  {
    var i: nat, o :| i < |queues| && Past(now, r) == Past(was, r) + [o] && Due(envs(i), peers, queues[i], r, o);
    assert Due(envs(i), peers, (queues + [next])[i], r, o);
  }

  /**
   Goes through the queue once, asking about every request; the first k, in front and with nobody
   to serve them, are to be dropped.
   */
  method Scan(env: Env, peers: set<Peer>, q: seq<Request>) returns (f: Found, k: nat)
    requires Sorted(q)
    ensures DroppedOk(env, peers, q, k, |q|) && FoundOk(env, peers, q, {}, |q|, f)
  {
    var i := 0;
    f, k := Found({}, {}, None, 0), 0;
    NothingFound(env, peers, q);
    while i < |q| && (peers != {} || q[i] == q[k])
      invariant i <= |q| && DroppedOk(env, peers, q, k, i) && FoundOk(env, peers, q, {}, i, f)
      decreases |q| - i
    {
      var drop;
      f, drop := Consider(env, peers, q, i, k, f);
      k := if drop then k + 1 else k;
      i := i + 1;
    }
    SeenAll(env, peers, q, k, i);
  }

  /** Asks about one request, to be dropped if it is in front and nobody can serve it. */
  method Consider(env: Env, peers: set<Peer>, q: seq<Request>, i: nat, k: nat, f: Found) returns (f': Found, drop: bool)
    requires Sorted(q) && i < |q| && DroppedOk(env, peers, q, k, i) && FoundOk(env, peers, q, {}, i, f)
    ensures FoundOk(env, peers, q, {}, i + 1, f')
    ensures DroppedOk(env, peers, q, if drop then k + 1 else k, i + 1) && (drop ==> i == k)
  {
    var canSend;
    f', canSend := AskAll(env, peers, q, i, f);
    if i == k {
      FrontServable(env, peers, q, i, canSend);
    }
    drop := !canSend && q[i] == q[k];
  }

  lemma HeadClosed(q: seq<Request>, log: Log, times: map<Request, nat>)
    requires q != [] && Sorted(q) && Accounted(q, log, times)
    ensures Sorted(q[1..]) && Accounted(q[1..], Close(log, q[0]), times)
    ensures forall r :: r in q[1..] ==> r in q
  {
    RemoveSorted(q, 0);
    assert RemoveAt(q, 0) == q[1..];
  }

  datatype Call =
    | Enqueue(number: nat)       // queue, with a new request or one queued before
    | Withdraw(r: Request)       // cancel
    | Wake(envs: nat -> Env)     // the loop receives its signal
    | Register(peer: Peer)
    | Unregister(peer: Peer)

  class Requests {
    var reqQueue: seq<Request>
    var peers: set<Peer>
    var lastReqOrder: nat
    var loopNextSent: bool
    var outcomes: Log                      // what the channels of each request have reported
    ghost var times: map<Request, nat>     // how often each request was queued

    ghost predicate Valid()
      reads this
    {
      && Sorted(reqQueue) && (forall r :: r in reqQueue ==> 0 < r <= lastReqOrder)
      && Accounted(reqQueue, outcomes, times)
    }

    /** While requests are queued, the loop has been signalled or is going to be. */
    ghost predicate Awake()
      reads this
    {
      reqQueue != [] ==> loopNextSent
    }

    constructor ()
      ensures Valid() && Awake() && reqQueue == []
    {
      reqQueue, peers, lastReqOrder, loopNextSent, outcomes, times := [], {}, 0, false, map[], map[];
    }

    /**
     Queues a request, new (number zero) or again.  A new one gets the next number and goes last,
     one that was queued before goes back to its place.
     */
    method Queue(number: nat) returns (r: Request, at: nat)
      requires Valid() && number <= lastReqOrder && number !in reqQueue
      modifies this`reqQueue, this`lastReqOrder, this`loopNextSent, this`times
      ensures Valid() && Awake()
      ensures at <= |old(reqQueue)| && reqQueue == InsertAt(old(reqQueue), at, r)
      ensures if number == 0 then r == lastReqOrder == old(lastReqOrder) + 1 && at == |old(reqQueue)|
              else r == number && lastReqOrder == old(lastReqOrder)
    {
      r := number;
      if number == 0 {
        lastReqOrder := lastReqOrder + 1;
        r := lastReqOrder;
      }
      at := Position(reqQueue, r);
      Enter(r, at);
      loopNextSent := true;
    }

    method Enter(r: Request, at: nat)
      requires Valid() && 0 < r <= lastReqOrder && r !in reqQueue && at <= |reqQueue|
      requires forall i :: 0 <= i < at ==> reqQueue[i] < r
      requires forall i :: at <= i < |reqQueue| ==> r < reqQueue[i]
      modifies this`reqQueue, this`times
      ensures Valid() && reqQueue == InsertAt(old(reqQueue), at, r)
    {
      InsertSorted(reqQueue, at, r);
      times := times[r := (if r in times then times[r] else 0) + 1];
      reqQueue := InsertAt(reqQueue, at, r);
    }

    /** Reports an outcome on a queued request's channel and takes it out of the queue. */
    method Settle(at: nat, outcome: Outcome)
      requires Valid() && at < |reqQueue|
      modifies this`reqQueue, this`outcomes
      ensures Valid() && reqQueue == RemoveAt(old(reqQueue), at)
      ensures var r := old(reqQueue)[at]; outcomes == old(outcomes)[r := Past(old(outcomes), r) + [outcome]]
    {
      var r := reqQueue[at];
      RemoveSorted(reqQueue, at);
      outcomes := outcomes[r := Past(outcomes, r) + [outcome]];
      reqQueue := RemoveAt(reqQueue, at);
    }

    /** Takes a request back if it is still queued. */
    method Cancel(r: Request) returns (ok: bool)
      requires Valid()
      modifies this`reqQueue, this`outcomes
      ensures Valid() && ok == (r in old(reqQueue)) && r !in reqQueue && |reqQueue| <= |old(reqQueue)|
      ensures forall o :: o != r ==> (o in reqQueue <==> o in old(reqQueue))
      ensures outcomes == if ok then old(outcomes)[r := Past(old(outcomes), r) + [Closed]] else old(outcomes)
    {
      ok := r in reqQueue;
      if ok {
        var at :| 0 <= at < |reqQueue| && reqQueue[at] == r;
        RemoveSorted(reqQueue, at);
        Settle(at, Closed);
      }
    }

    /**
     Drops the requests at the front that nobody can serve, and picks the next one with its peer:
     one that can be sent at once if there is any, else one with the shortest wait.  Either way it
     is the first in the queue that its peer can serve.  Nothing to pick means nothing is queued.
     */
    method NextRequest(env: Env) returns (choice: Option<Choice>, wait: nat, k: nat)
      requires Valid()
      modifies this`reqQueue, this`outcomes
      ensures Valid() && DroppedOk(env, peers, old(reqQueue), k, |old(reqQueue)|) && reqQueue == old(reqQueue)[k..]
      ensures outcomes == AllClosed(old(outcomes), old(reqQueue), k)
      ensures choice.Some? ==> k <= choice.value.at && Best(env, peers, old(reqQueue), choice.value, wait)
      ensures choice.None? <==> reqQueue == []
      ensures choice.None? ==> wait == 0
    {
      var q, f := reqQueue, Found({}, {}, None, 0);
      f, k := Scan(env, peers, q);
      DropFront(k);
      choice, wait := Pick(env, peers, q, k, f);
    }

    /** Closes the channels of the first k requests and removes them. */
    method DropFront(k: nat)
      requires Valid() && k <= |reqQueue|
      modifies this`reqQueue, this`outcomes
      ensures Valid() && reqQueue == old(reqQueue)[k..] && outcomes == AllClosed(old(outcomes), old(reqQueue), k)
    {
      var left: nat := k;
      while left > 0
        invariant left <= |reqQueue| && Valid()
        invariant AllClosed(outcomes, reqQueue, left) == AllClosed(old(outcomes), old(reqQueue), k)
        invariant reqQueue[left..] == old(reqQueue)[k..]
      {
        HeadClosed(reqQueue, outcomes, times);
        assert reqQueue[1..][left - 1..] == reqQueue[left..];
        reqQueue, outcomes := reqQueue[1..], Close(outcomes, reqQueue[0]);
        left := left - 1;
      }
    }

    /** Sends a request, once the first k have been dropped. */
    method SendTo(c: Choice, k: nat, ghost q: seq<Request>, ghost log: Log)
      requires Valid() && k <= c.at < |q| && reqQueue == q[k..] && outcomes == AllClosed(log, q, k)
      modifies this`reqQueue, this`outcomes
      ensures Valid() && |reqQueue| < |q|
      ensures reqQueue == Rest(q, k, Some(c)) && outcomes == Logged(log, q, k, Some(c))
    {
      assert q[k..][c.at - k] == q[c.at];
      Settle(c.at - k, Sent(c.peer));
    }

    /** One round of the loop: sends the next request if it can go at once. */
    method SendNext(env: Env) returns (sent: Option<Choice>, wait: nat, ghost k: nat)
      requires Valid()
      modifies this`reqQueue, this`outcomes
      ensures Valid() && DroppedOk(env, peers, old(reqQueue), k, |old(reqQueue)|)
      ensures sent.Some? ==>
                && k <= sent.value.at && Best(env, peers, old(reqQueue), sent.value, 0)
                && |reqQueue| < |old(reqQueue)|
      ensures reqQueue == Rest(old(reqQueue), k, sent) && outcomes == Logged(old(outcomes), old(reqQueue), k, sent)
      ensures sent.None? ==>
                && (reqQueue != [] <==> wait > 0)
                && AllWait(env, peers, reqQueue, wait)
    {
      ghost var q, log := reqQueue, outcomes;
      var choice, first;
      choice, wait, first := NextRequest(env);
      k := first;
      sent := None;
      if choice.Some? && wait == 0 {
        SendTo(choice.value, first, q, log);
        sent := choice;
      } else {
        NoneSent(env, peers, q, first, choice, wait);
      }
    }

    /**
     The loop after a signal: sends whatever can go at once.  It ends with nothing queued, or with
     the next signal on its way after the shortest wait or DIST_MAX_WAIT.  `queues` are those its
     rounds have found; every request that left did so in one of them, for cause.
     */
    method Loop(envs: nat -> Env) returns (sleep: Option<nat>, ghost last: nat, ghost queues: seq<seq<Request>>)
      requires Valid()
      modifies this`reqQueue, this`outcomes, this`loopNextSent
      ensures Valid() && Awake() && (sleep.Some? <==> reqQueue != [])
      ensures sleep.Some? ==> 0 < sleep.value <= DIST_MAX_WAIT && AllWait(envs(last), peers, reqQueue, sleep.value)
      ensures |queues| == last + 1 && queues[0] == old(reqQueue)
      ensures Fates(envs, peers, queues, old(reqQueue), old(outcomes), reqQueue, outcomes)
    {
      loopNextSent := false;
      var round: nat := 0;
      queues := [];
      ghost var q0, log0 := reqQueue, outcomes;
      while true
        invariant Valid() && !loopNextSent && |queues| == round
        invariant if round == 0 then reqQueue == q0 else queues[0] == q0
        invariant Fates(envs, peers, queues, q0, log0, reqQueue, outcomes)
        decreases |reqQueue|
      {
        ghost var k, q, log := 0, reqQueue, outcomes;
        var sent, wait;
        sent, wait, k := SendNext(envs(round));
        OneRound(envs, peers, queues, q0, log0, q, log, k, sent);
        queues := queues + [q];
        last := round;
        round := round + 1;
        if sent.None? {
          if wait == 0 {
            sleep := None;
            return;
          }
          loopNextSent := true;
          sleep := Some(if wait > DIST_MAX_WAIT then DIST_MAX_WAIT else wait);
          return;
        }
      }
    }

    /** Any run before shutdown. */
    method Run(calls: seq<Call>)
      requires Valid() && Awake()
      modifies this
      ensures Valid() && Awake()
    {
      for i := 0 to |calls|
        invariant Valid() && Awake()
      {
        match calls[i]
        case Enqueue(number) =>
          if number <= lastReqOrder && number !in reqQueue {
            var _, _ := Queue(number);
          }
        case Withdraw(r) =>
          var _ := Cancel(r);
        case Wake(envs) =>
          if loopNextSent {
            var _, _, _ := Loop(envs);
          }
        case Register(p) =>
          peers := peers + {p};
        case Unregister(p) =>
          peers := peers - {p};
      }
    }
  }
}
