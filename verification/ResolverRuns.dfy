/** The resolver over whole runs: its sorted list of active queries, its timeouts and its callbacks. */
module ResolverRuns {
  import opened DomainName
  import opened QueryRules
  import opened Sequences

  datatype End = End(key: nat, status: Status)

  /** `next` counts the submitted queries, `sends` records whose transmissions, `ended` the calls of callbacks. */
  datatype State = State(active: seq<Query>, ended: seq<End>, cancelled: seq<nat>, next: nat, sends: seq<nat>)

  // -------------------------------------------------------------------------
  // The list, sorted by deadline
  // -------------------------------------------------------------------------

  predicate Sorted(s: seq<Query>) {
    forall i, j | 0 <= i < j < |s| :: s[i].deadline <= s[j].deadline
  }

  /** Where a search from the tail stops: behind the last query that is due at `d` or before. */
  function Place(s: seq<Query>, d: int): (n: nat)
    ensures n <= |s|
    ensures n > 0 ==> s[n - 1].deadline <= d
    ensures forall i | n <= i < |s| :: s[i].deadline > d
  {
    if s == [] then 0
    else if s[|s| - 1].deadline <= d then |s|
    else Place(s[..|s| - 1], d)
  }

  function Insert(s: seq<Query>, q: Query): (r: seq<Query>)
    ensures |r| == |s| + 1
  {
    With(s, Place(s, q.deadline), q)
  }

  lemma InsertSorted(s: seq<Query>, q: Query)
    requires Sorted(s)
    ensures Sorted(Insert(s, q))
  {
  }

  lemma RemoveSorted(s: seq<Query>, k: nat)
    requires Sorted(s) && k < |s|
    ensures Sorted(Without(s, k))
  {
  }

  lemma PlaceIsUnique(s: seq<Query>, d: int, n: nat)
    requires n <= |s|
    requires n > 0 ==> s[n - 1].deadline <= d
    requires forall i | n <= i < |s| :: s[i].deadline > d
    ensures Place(s, d) == n
  {
  }

  lemma PlaceBehind(a: seq<Query>, b: seq<Query>, d: int)
    requires forall i | 0 <= i < |a| :: a[i].deadline <= d
    ensures Place(a + b, d) == |a| + Place(b, d)
  {
    hide Place;
    var n, s := Place(b, d), a + b;
    assert forall i | |a| + n <= i < |s| :: s[i] == b[i - |a|];
    PlaceIsUnique(s, d, |a| + n);
  }

  /** A query due after all of `a` goes behind them. */
  lemma InsertBehind(a: seq<Query>, b: seq<Query>, q: Query)
    requires forall i | 0 <= i < |a| :: a[i].deadline <= q.deadline
    ensures Insert(a + b, q) == a + Insert(b, q)
  {
    hide Place;
    PlaceBehind(a, b, q.deadline);
    var n := Place(b, q.deadline);
    assert (a + b)[..|a| + n] == a + b[..n] && (a + b)[|a| + n..] == b[n..];
  }

  // -------------------------------------------------------------------------
  // The steps
  // -------------------------------------------------------------------------

  /** The outcome for a query that was taken out of the list. */
  function Settle(st: State, key: nat, o: Outcome): State {
    match o
    case Sent(q) => st.(active := Insert(st.active, q), sends := st.sends + [key])
    case Kept(q) => st
    case Ends(status) => st.(ended := st.ended + [End(key, status)])
  }

  /** `dns_send` or a reply for the query at place `k`: it moves only if it is sent. */
  function Apply(st: State, k: nat, o: Outcome): State
    requires k < |st.active|
  {
    if o.Kept? then st.(active := st.active[k := o.q])
    else Settle(st.(active := Without(st.active, k)), st.active[k].key, o)
  }

  /** The queries that are due are each sent or ended once; `fails` are those that `sendto` refuses. */
  function Pass(cfg: Config, due: seq<Query>, st: State, now: int, fails: set<nat>): State
    decreases |due|
  {
    if due == [] then st
    else Pass(cfg, due[1..], Settle(st, due[0].key, Send(cfg, due[0], now, due[0].key !in fails)), now, fails)
  }

  /** `dns_timeouts`. */
  function Timeouts(cfg: Config, st: State, now: int, fails: set<nat>): State {
    var n := Place(st.active, now);
    Pass(cfg, st.active[..n], st.(active := st.active[n..]), now, fails)
  }

  datatype Event =
    | Submit(orig: Name, nosrch: bool, ndots: nat)
    | Expire(now: int, fails: set<nat>)
    | Receive(k: nat, servi: nat, reply: Reply, at: int, ok: bool)
    | Cancel(k: nat)

  predicate CanDo(st: State, e: Event) {
    match e
    case Submit(orig, _, _) => WellFormed(orig)
    case Expire(now, _) => now >= 0
    case Receive(k, _, _, at, _) => k < |st.active| && at >= 0 && ValidLabels(st.active[k].orig)
    case Cancel(k) => k < |st.active|
  }

  function Do(cfg: Config, st: State, e: Event): State
    requires ValidConfig(cfg) && CanDo(st, e)
  {
    match e
    case Submit(orig, nosrch, ndots) =>
      st.(active := [NewQuery(cfg, st.next, orig, nosrch, ndots)] + st.active, next := st.next + 1)
    case Expire(now, fails) => Timeouts(cfg, st, now, fails)
    case Receive(k, servi, reply, at, ok) => Apply(st, k, HandleReply(cfg, st.active[k], servi, reply, at, ok))
    case Cancel(k) => st.(active := Without(st.active, k), cancelled := st.cancelled + [st.active[k].key])
  }

  // -------------------------------------------------------------------------
  // Exactly one end for every query
  // -------------------------------------------------------------------------

  function Keys(s: seq<Query>): multiset<nat> {
    if s == [] then multiset{} else multiset{s[0].key} + Keys(s[1..])
  }

  function EndKeys(s: seq<End>): multiset<nat> {
    if s == [] then multiset{} else EndKeys(s[..|s| - 1]) + multiset{s[|s| - 1].key}
  }

  function KeysBelow(n: nat): (m: multiset<nat>)
    ensures forall k: nat :: m[k] == if k < n then 1 else 0
  {
    if n == 0 then multiset{} else KeysBelow(n - 1) + multiset{n - 1}
  }

  lemma {:induction false} KeysAppend(a: seq<Query>, b: seq<Query>)
    ensures Keys(a + b) == Keys(a) + Keys(b)
  {
    if a == [] {
      assert a + b == b;
    } else {
      assert (a + b)[1..] == a[1..] + b;
      KeysAppend(a[1..], b);
    }
  }

  lemma KeysOne(q: Query)
    ensures Keys([q]) == multiset{q.key}
  {
    assert [q][1..] == [];
  }

  lemma KeysBetween(a: seq<Query>, q: Query, b: seq<Query>)
    ensures Keys(a + [q] + b) == Keys(a + b) + multiset{q.key}
  {
    hide Keys;
    KeysAppend(a + [q], b);
    KeysAppend(a, [q]);
    KeysAppend(a, b);
    KeysOne(q);
  }

  lemma KeysInsert(s: seq<Query>, q: Query)
    ensures Keys(Insert(s, q)) == Keys(s) + multiset{q.key}
  {
    hide Keys;
    var n := Place(s, q.deadline);
    assert s == s[..n] + s[n..];
    KeysBetween(s[..n], q, s[n..]);
  }

  lemma KeysRemove(s: seq<Query>, k: nat)
    requires k < |s|
    ensures Keys(s) == Keys(Without(s, k)) + multiset{s[k].key}
  {
    hide Keys;
    SplitAt(s, k);
    KeysBetween(s[..k], s[k], s[k + 1..]);
  }

  lemma EndKeysAppend(s: seq<End>, e: End)
    ensures EndKeys(s + [e]) == EndKeys(s) + multiset{e.key}
  {
    assert (s + [e])[..|s|] == s;
  }

  /** Every key is in the list, or its callback was called, or it was cancelled. */
  function Ledger(st: State): multiset<nat> {
    Keys(st.active) + EndKeys(st.ended) + multiset(st.cancelled)
  }

  predicate AllValid(cfg: Config, s: seq<Query>) {
    forall i | 0 <= i < |s| :: ValidQuery(cfg, s[i]) && s[i].deadline >= 0
  }

  ghost predicate Inv(cfg: Config, st: State) {
    && Sorted(st.active)
    && AllValid(cfg, st.active)
    && Ledger(st) == KeysBelow(st.next)
  }

  lemma SettleLedger(st: State, key: nat, o: Outcome)
    requires !o.Kept? && (o.Sent? ==> o.q.key == key)
    ensures Ledger(Settle(st, key, o)) == Ledger(st) + multiset{key}
    ensures Settle(st, key, o).next == st.next
  {
    hide Keys, EndKeys;
    if o.Sent? {
      KeysInsert(st.active, o.q);
    } else {
      EndKeysAppend(st.ended, End(key, o.status));
    }
  }

  lemma SettleValid(cfg: Config, st: State, key: nat, o: Outcome)
    requires Sorted(st.active) && AllValid(cfg, st.active)
    requires o.Sent? ==> ValidQuery(cfg, o.q) && o.q.deadline >= 0
    ensures Sorted(Settle(st, key, o).active) && AllValid(cfg, Settle(st, key, o).active)
  {
    hide ValidQuery;
    if o.Sent? {
      InsertSorted(st.active, o.q);
    }
  }

  /** The keys of the queries still to be handled are not yet in the ledger of the rest. */
  lemma {:induction false} PassKeeps(cfg: Config, due: seq<Query>, st: State, now: int, fails: set<nat>)
    requires ValidConfig(cfg) && AllValid(cfg, due) && now >= 0
    requires Sorted(st.active) && AllValid(cfg, st.active)
    ensures var st2 := Pass(cfg, due, st, now, fails);
      && Sorted(st2.active) && AllValid(cfg, st2.active) && st2.next == st.next
      && Ledger(st2) == Ledger(st) + Keys(due)
    decreases |due|
  {
    hide Ledger, ValidQuery, Send, Settle, Sorted;
    if due != [] {
      var o := Send(cfg, due[0], now, due[0].key !in fails);
      SendSettles(cfg, due[0], now, due[0].key !in fails);
      SettleLedger(st, due[0].key, o);
      SettleValid(cfg, st, due[0].key, o);
      PassKeeps(cfg, due[1..], Settle(st, due[0].key, o), now, fails);
    }
  }

  lemma SendSettles(cfg: Config, q: Query, now: int, ok: bool)
    requires ValidConfig(cfg) && ValidQuery(cfg, q) && now >= 0
    ensures var o := Send(cfg, q, now, ok);
      !o.Kept? && (o.Sent? ==> ValidQuery(cfg, o.q) && o.q.key == q.key && o.q.deadline > now)
  {
    SendProgress(cfg, q, now, ok);
  }

  lemma ApplyKeeps(cfg: Config, st: State, k: nat, o: Outcome, now: int)
    requires Inv(cfg, st) && k < |st.active| && now >= 0
    requires Progress(cfg, st.active[k], now, o)
    ensures Inv(cfg, Apply(st, k, o))
  {
    hide Ledger, ValidQuery, Settle, Keys, KeysBelow;
    var q := st.active[k];
    var rest := st.(active := Without(st.active, k));
    RemoveLedger(st, k);
    if o.Kept? {
      KeptLedger(st, k, o.q);
    } else {
      assert Sorted(rest.active) by { RemoveSorted(st.active, k); }
      assert AllValid(cfg, rest.active);
      SettleLedger(rest, q.key, o);
      SettleValid(cfg, rest, q.key, o);
    }
  }

  lemma RemoveLedger(st: State, k: nat)
    requires k < |st.active|
    ensures Ledger(st) == Ledger(st.(active := Without(st.active, k))) + multiset{st.active[k].key}
  {
    hide Keys, EndKeys, Without;
    KeysRemove(st.active, k);
  }

  lemma KeptLedger(st: State, k: nat, q: Query)
    requires k < |st.active| && q.key == st.active[k].key
    ensures Ledger(st.(active := st.active[k := q])) == Ledger(st)
  {
    hide Keys, EndKeys;
    var s := st.active[k := q];
    KeysRemove(st.active, k);
    KeysRemove(s, k);
    assert Without(s, k) == Without(st.active, k);
  }

  lemma SubmitKeeps(cfg: Config, st: State, q: Query)
    requires Inv(cfg, st) && ValidQuery(cfg, q) && q.deadline == 0 && q.key == st.next
    ensures Inv(cfg, st.(active := [q] + st.active, next := st.next + 1))
  {
    hide ValidQuery, Keys, EndKeys;
    KeysAppend([q], st.active);
    KeysOne(q);
  }

  lemma CancelKeeps(cfg: Config, st: State, k: nat)
    requires Inv(cfg, st) && k < |st.active|
    ensures Inv(cfg, st.(active := Without(st.active, k), cancelled := st.cancelled + [st.active[k].key]))
  {
    hide ValidQuery, Keys, EndKeys, KeysBelow;
    RemoveLedger(st, k);
    assert Sorted(Without(st.active, k)) by { RemoveSorted(st.active, k); }
  }

  lemma SplitKeeps(cfg: Config, s: seq<Query>, n: nat)
    requires Sorted(s) && AllValid(cfg, s) && n <= |s|
    ensures Sorted(s[n..]) && AllValid(cfg, s[n..]) && AllValid(cfg, s[..n])
    ensures Keys(s) == Keys(s[..n]) + Keys(s[n..])
  {
    hide ValidQuery, Keys;
    assert s == s[..n] + s[n..];
    KeysAppend(s[..n], s[n..]);
  }

  lemma TimeoutsKeeps(cfg: Config, st: State, now: int, fails: set<nat>)
    requires ValidConfig(cfg) && Inv(cfg, st) && now >= 0
    ensures Inv(cfg, Timeouts(cfg, st, now, fails))
  {
    hide Sorted, AllValid, Keys, EndKeys, KeysBelow, Pass, Place;
    var n := Place(st.active, now);
    SplitKeeps(cfg, st.active, n);
    PassKeeps(cfg, st.active[..n], st.(active := st.active[n..]), now, fails);
  }

  /** Every step keeps the list sorted and valid, and every query in exactly one place. */
  lemma StepKeepsInv(cfg: Config, st: State, e: Event)
    requires ValidConfig(cfg) && Inv(cfg, st) && CanDo(st, e)
    ensures Inv(cfg, Do(cfg, st, e))
  {
    hide Inv, ValidQuery, Timeouts, Apply, HandleReply, NewQuery, Progress;
    match e
    case Submit(orig, nosrch, ndots) =>
      NewQueryValid(cfg, st.next, orig, nosrch, ndots);
      SubmitKeeps(cfg, st, NewQuery(cfg, st.next, orig, nosrch, ndots));
    case Expire(now, fails) => TimeoutsKeeps(cfg, st, now, fails);
    case Receive(k, servi, reply, at, ok) =>
      assert ValidQuery(cfg, st.active[k]) by { InvMeans(cfg, st, k); }
      ReplyProgress(cfg, st.active[k], servi, reply, at, ok);
      ApplyKeeps(cfg, st, k, HandleReply(cfg, st.active[k], servi, reply, at, ok), at);
    case Cancel(k) => CancelKeeps(cfg, st, k);
  }

  lemma InvMeans(cfg: Config, st: State, k: nat)
    requires Inv(cfg, st) && k < |st.active|
    ensures ValidQuery(cfg, st.active[k])
  {
  }

  // -------------------------------------------------------------------------
  // Runs, and the callback of every query
  // -------------------------------------------------------------------------

  predicate CanRun(cfg: Config, st: State, run: seq<Event>)
    requires ValidConfig(cfg)
    decreases |run|
  {
    run == [] || (CanDo(st, run[0]) && CanRun(cfg, Do(cfg, st, run[0]), run[1..]))
  }

  function After(cfg: Config, st: State, run: seq<Event>): State
    requires ValidConfig(cfg) && CanRun(cfg, st, run)
    decreases |run|
  {
    if run == [] then st else After(cfg, Do(cfg, st, run[0]), run[1..])
  }

  const FRESH := State([], [], [], 0, [])

  lemma {:induction false} RunKeepsInv(cfg: Config, st: State, run: seq<Event>)
    requires ValidConfig(cfg) && Inv(cfg, st) && CanRun(cfg, st, run)
    ensures Inv(cfg, After(cfg, st, run))
    decreases |run|
  {
    hide Inv, CanDo, Do;
    if run != [] {
      StepKeepsInv(cfg, st, run[0]);
      RunKeepsInv(cfg, Do(cfg, st, run[0]), run[1..]);
    }
  }

  /**
   * In every run, each submitted query is active once, or its callback was called once, or it was
   * cancelled once, and never two of these.
   */
  lemma CallbackOnce(cfg: Config, run: seq<Event>, key: nat)
    requires ValidConfig(cfg) && CanRun(cfg, FRESH, run)
    ensures var st := After(cfg, FRESH, run);
      && Keys(st.active)[key] + EndKeys(st.ended)[key] + multiset(st.cancelled)[key] == (if key < st.next then 1 else 0)
      && Sorted(st.active)
  {
    assert Inv(cfg, FRESH);
    RunKeepsInv(cfg, FRESH, run);
    var st := After(cfg, FRESH, run);
    assert Ledger(st)[key] == KeysBelow(st.next)[key];
  }

  // -------------------------------------------------------------------------
  // How often a query is sent
  // -------------------------------------------------------------------------

  /** The measure of a query as one number. */
  function Rank(cfg: Config, q: Query): nat
    requires ValidConfig(cfg) && ValidQuery(cfg, q)
  {
    SubsetSize(q.servnEDNS0, Servers(cfg.nserv));
    Digits(
      Digits(
        Digits(|cfg.suffixes| - q.nxt, cfg.ntries - 1 - q.tries, cfg.ntries),
        cfg.nserv - q.servi, cfg.nserv + 1),
      cfg.nserv - |q.servnEDNS0|, cfg.nserv + 1)
  }

  function Digits(hi: nat, lo: nat, base: nat): nat {
    hi * base + lo
  }

  lemma DigitsLess(hi: nat, lo: nat, hi2: nat, lo2: nat, base: nat)
    requires lo < base && lo2 < base
    requires hi2 < hi || (hi2 == hi && lo2 < lo)
    ensures Digits(hi2, lo2, base) < Digits(hi, lo, base)
  {
    if hi2 < hi {
      assert (hi2 + 1) * base <= hi * base;
    }
  }

  lemma LessRank(cfg: Config, p: Query, q: Query)
    requires ValidConfig(cfg) && ValidQuery(cfg, p) && ValidQuery(cfg, q) && Less(cfg, p, q)
    ensures Rank(cfg, p) < Rank(cfg, q)
  {
    hide Digits, WellFormed, Servers;
    SubsetSize(p.servnEDNS0, Servers(cfg.nserv));
    SubsetSize(q.servnEDNS0, Servers(cfg.nserv));
    var n := |cfg.suffixes|;
    var ps := Digits(n - p.nxt, cfg.ntries - 1 - p.tries, cfg.ntries);
    var qs := Digits(n - q.nxt, cfg.ntries - 1 - q.tries, cfg.ntries);
    if p.nxt > q.nxt || (p.nxt == q.nxt && p.tries > q.tries) {
      DigitsLess(n - q.nxt, cfg.ntries - 1 - q.tries, n - p.nxt, cfg.ntries - 1 - p.tries, cfg.ntries);
    }
    var pt, qt := Digits(ps, cfg.nserv - p.servi, cfg.nserv + 1), Digits(qs, cfg.nserv - q.servi, cfg.nserv + 1);
    if ps < qs || (ps == qs && p.servi > q.servi) {
      DigitsLess(qs, cfg.nserv - q.servi, ps, cfg.nserv - p.servi, cfg.nserv + 1);
    }
    DigitsLess(qt, cfg.nserv - |q.servnEDNS0|, pt, cfg.nserv - |p.servnEDNS0|, cfg.nserv + 1);
  }

  lemma SameRank(cfg: Config, p: Query, q: Query)
    requires ValidConfig(cfg) && ValidQuery(cfg, p) && ValidQuery(cfg, q) && SameMeasure(p, q)
    ensures Rank(cfg, p) == Rank(cfg, q)
  {
    hide Digits, WellFormed, Servers;
  }

  /** A bound on the transmissions of one query, from the settings alone. */
  function MaxSends(cfg: Config): nat {
    (|cfg.suffixes| + 1) * cfg.ntries * (cfg.nserv + 1) * (cfg.nserv + 1)
  }

  lemma DigitsBound(hi: nat, lo: nat, base: nat, top: nat)
    requires hi < top && lo < base
    ensures Digits(hi, lo, base) < top * base
  {
    assert (hi + 1) * base <= top * base;
  }

  lemma RankBound(cfg: Config, q: Query)
    requires ValidConfig(cfg) && ValidQuery(cfg, q)
    ensures Rank(cfg, q) < MaxSends(cfg)
  {
    hide Digits, WellFormed, Servers;
    SubsetSize(q.servnEDNS0, Servers(cfg.nserv));
    var n := |cfg.suffixes|;
    var s := Digits(n - q.nxt, cfg.ntries - 1 - q.tries, cfg.ntries);
    DigitsBound(n - q.nxt, cfg.ntries - 1 - q.tries, cfg.ntries, n + 1);
    var t := Digits(s, cfg.nserv - q.servi, cfg.nserv + 1);
    DigitsBound(s, cfg.nserv - q.servi, cfg.nserv + 1, (n + 1) * cfg.ntries);
    DigitsBound(t, cfg.nserv - |q.servnEDNS0|, cfg.nserv + 1, (n + 1) * cfg.ntries * (cfg.nserv + 1));
  }

  /** The queries that are counted: all of them, or only the one with this key. */
  predicate Counts(only: Option<nat>, key: nat) {
    only.None? || only.value == key
  }

  function Count(only: Option<nat>, sends: seq<nat>): nat {
    if sends == [] then 0
    else Count(only, sends[..|sends| - 1]) + if Counts(only, sends[|sends| - 1]) then 1 else 0
  }

  lemma CountAppend(only: Option<nat>, sends: seq<nat>, key: nat)
    ensures Count(only, sends + [key]) == Count(only, sends) + if Counts(only, key) then 1 else 0
  {
    assert (sends + [key])[..|sends|] == sends;
  }

  lemma {:induction false} CountMeans(only: Option<nat>, sends: seq<nat>)
    ensures Count(only, sends) == if only.None? then |sends| else multiset(sends)[only.value]
  {
    if sends != [] {
      var n := |sends| - 1;
      assert sends == sends[..n] + [sends[n]];
      CountMeans(only, sends[..n]);
    }
  }

  /** What a query may still cost: its transmissions, and its end. */
  function Worth(cfg: Config, only: Option<nat>, q: Query): nat {
    if Counts(only, q.key) && ValidConfig(cfg) && ValidQuery(cfg, q) then Rank(cfg, q) + 1 else 0
  }

  function Work(cfg: Config, only: Option<nat>, s: seq<Query>): nat {
    if s == [] then 0 else Worth(cfg, only, s[0]) + Work(cfg, only, s[1..])
  }

  lemma {:induction false} WorkAppend(cfg: Config, only: Option<nat>, a: seq<Query>, b: seq<Query>)
    ensures Work(cfg, only, a + b) == Work(cfg, only, a) + Work(cfg, only, b)
  {
    hide Worth;
    if a == [] {
      assert a + b == b;
    } else {
      assert (a + b)[1..] == a[1..] + b;
      WorkAppend(cfg, only, a[1..], b);
    }
  }

  lemma WorkBetween(cfg: Config, only: Option<nat>, a: seq<Query>, q: Query, b: seq<Query>)
    ensures Work(cfg, only, a + [q] + b) == Work(cfg, only, a + b) + Worth(cfg, only, q)
  {
    hide Worth;
    WorkAppend(cfg, only, a + [q], b);
    WorkAppend(cfg, only, a, [q]);
    WorkAppend(cfg, only, a, b);
    assert [q][1..] == [];
  }

  lemma WorkInsert(cfg: Config, only: Option<nat>, s: seq<Query>, q: Query)
    ensures Work(cfg, only, Insert(s, q)) == Work(cfg, only, s) + Worth(cfg, only, q)
  {
    hide Work, Worth;
    var n := Place(s, q.deadline);
    assert s == s[..n] + s[n..];
    WorkBetween(cfg, only, s[..n], q, s[n..]);
  }

  lemma WorkRemove(cfg: Config, only: Option<nat>, s: seq<Query>, k: nat)
    requires k < |s|
    ensures Work(cfg, only, s) == Work(cfg, only, Without(s, k)) + Worth(cfg, only, s[k])
  {
    hide Work, Worth;
    SplitAt(s, k);
    WorkBetween(cfg, only, s[..k], s[k], s[k + 1..]);
  }

  /** The transmissions so far, and those that may still come. */
  function Total(cfg: Config, only: Option<nat>, st: State): nat {
    Count(only, st.sends) + Work(cfg, only, st.active)
  }

  /** A transmission or an end takes at least one from what the query may still cost. */
  lemma SettleWork(cfg: Config, only: Option<nat>, st: State, q: Query, o: Outcome)
    requires ValidConfig(cfg) && ValidQuery(cfg, q) && !o.Kept?
    requires o.Sent? ==> ValidQuery(cfg, o.q) && Less(cfg, o.q, q) && o.q.key == q.key
    ensures var st2 := Settle(st, q.key, o);
      && Work(cfg, only, st2.active) + (if Counts(only, q.key) then 1 else 0) <=
        Work(cfg, only, st.active) + Worth(cfg, only, q)
      && Total(cfg, only, st2) <= Total(cfg, only, st) + Worth(cfg, only, q)
  {
    hide Work, Rank, ValidQuery, Less, Insert, Count;
    if o.Sent? {
      WorkInsert(cfg, only, st.active, o.q);
      LessRank(cfg, o.q, q);
      CountAppend(only, st.sends, q.key);
    }
  }

  lemma {:induction false} PassWork(
      cfg: Config, only: Option<nat>, due: seq<Query>, st: State, now: int, fails: set<nat>)
    requires ValidConfig(cfg) && AllValid(cfg, due)
    ensures var st2 := Pass(cfg, due, st, now, fails);
      && Work(cfg, only, st2.active) + (if only.None? then |due| else 0) <=
        Work(cfg, only, st.active) + Work(cfg, only, due)
      && Total(cfg, only, st2) <= Total(cfg, only, st) + Work(cfg, only, due)
      && st2.next == st.next
    decreases |due|
  {
    hide ValidQuery, Send, Settle, Less, Worth, Total;
    if due != [] {
      var o := Send(cfg, due[0], now, due[0].key !in fails);
      SendProgress(cfg, due[0], now, due[0].key !in fails);
      SettleWork(cfg, only, st, due[0], o);
      SettleNext(st, due[0].key, o);
      PassWork(cfg, only, due[1..], Settle(st, due[0].key, o), now, fails);
    }
  }

  lemma SettleNext(st: State, key: nat, o: Outcome)
    ensures Settle(st, key, o).next == st.next
  {
  }

  lemma TimeoutsWork(cfg: Config, only: Option<nat>, st: State, now: int, fails: set<nat>)
    requires ValidConfig(cfg) && AllValid(cfg, st.active)
    ensures var st2 := Timeouts(cfg, st, now, fails);
      && Work(cfg, only, st2.active) + (if only.None? then Place(st.active, now) else 0) <= Work(cfg, only, st.active)
      && Total(cfg, only, st2) <= Total(cfg, only, st)
      && st2.next == st.next
  {
    hide ValidQuery, Pass, Work, Place;
    var n := Place(st.active, now);
    assert st.active == st.active[..n] + st.active[n..];
    WorkAppend(cfg, only, st.active[..n], st.active[n..]);
    PassWork(cfg, only, st.active[..n], st.(active := st.active[n..]), now, fails);
  }

  lemma ApplyWork(cfg: Config, only: Option<nat>, st: State, k: nat, o: Outcome, now: int)
    requires ValidConfig(cfg) && AllValid(cfg, st.active) && k < |st.active|
    requires Progress(cfg, st.active[k], now, o)
    ensures var st2 := Apply(st, k, o);
      && Work(cfg, only, st2.active) <= Work(cfg, only, st.active)
      && Total(cfg, only, st2) <= Total(cfg, only, st)
      && st2.next == st.next
  {
    hide ValidQuery, Work, Rank, Settle, Less, Without, SameMeasure, Count;
    var q := st.active[k];
    WorkRemove(cfg, only, st.active, k);
    if o.Kept? {
      var s := st.active[k := o.q];
      WorkRemove(cfg, only, s, k);
      assert Without(s, k) == Without(st.active, k) by { RemoveReplaced(st.active, k, o.q); }
      SameRank(cfg, o.q, q);
    } else {
      var rest := st.(active := Without(st.active, k));
      SettleWork(cfg, only, rest, q, o);
      SettleNext(rest, q.key, o);
    }
  }

  lemma RemoveReplaced(s: seq<Query>, k: nat, q: Query)
    requires k < |s|
    ensures Without(s[k := q], k) == Without(s, k)
  {
  }

  /** What one submission may cost. */
  function Fee(cfg: Config, only: Option<nat>, key: nat): nat {
    if Counts(only, key) then MaxSends(cfg) else 0
  }

  lemma SubmitWork(cfg: Config, only: Option<nat>, s: seq<Query>, q: Query)
    requires ValidConfig(cfg) && ValidQuery(cfg, q)
    ensures Work(cfg, only, [q] + s) <= Fee(cfg, only, q.key) + Work(cfg, only, s)
  {
    hide ValidQuery, Work, MaxSends, Rank;
    RankBound(cfg, q);
    WorkAppend(cfg, only, [q], s);
    WorkOne(cfg, only, q);
  }

  lemma StepWork(cfg: Config, only: Option<nat>, st: State, e: Event)
    requires ValidConfig(cfg) && Inv(cfg, st) && CanDo(st, e)
    ensures var st2 := Do(cfg, st, e);
      && (!e.Submit? ==> Work(cfg, only, st2.active) <= Work(cfg, only, st.active))
      && Total(cfg, only, st2) <= Total(cfg, only, st) + (if e.Submit? then Fee(cfg, only, st.next) else 0)
      && st2.next == st.next + if e.Submit? then 1 else 0
  {
    hide ValidQuery, Timeouts, Apply, HandleReply, NewQuery, Progress, Work, Fee, Count, ValidConfig;
    match e
    case Submit(orig, nosrch, ndots) =>
      NewQueryValid(cfg, st.next, orig, nosrch, ndots);
      SubmitWork(cfg, only, st.active, NewQuery(cfg, st.next, orig, nosrch, ndots));
    case Expire(now, fails) => TimeoutsWork(cfg, only, st, now, fails);
    case Receive(k, servi, reply, at, ok) =>
      ReplyProgress(cfg, st.active[k], servi, reply, at, ok);
      ApplyWork(cfg, only, st, k, HandleReply(cfg, st.active[k], servi, reply, at, ok), at);
    case Cancel(k) => WorkRemove(cfg, only, st.active, k);
  }

  lemma WorkOne(cfg: Config, only: Option<nat>, q: Query)
    ensures Work(cfg, only, [q]) == Worth(cfg, only, q)
  {
    assert [q][1..] == [];
  }

  /** What all the submissions so far may cost. */
  function Budget(cfg: Config, only: Option<nat>, next: nat): nat {
    if only.None? then next * MaxSends(cfg) else if only.value < next then MaxSends(cfg) else 0
  }

  lemma BudgetStep(cfg: Config, only: Option<nat>, next: nat)
    ensures Budget(cfg, only, next + 1) == Budget(cfg, only, next) + Fee(cfg, only, next)
  {
    hide MaxSends;
    assert (next + 1) * MaxSends(cfg) == next * MaxSends(cfg) + MaxSends(cfg);
  }

  lemma {:induction false} RunWork(cfg: Config, only: Option<nat>, st: State, run: seq<Event>)
    requires ValidConfig(cfg) && Inv(cfg, st) && CanRun(cfg, st, run)
    requires Total(cfg, only, st) <= Budget(cfg, only, st.next)
    ensures var st2 := After(cfg, st, run);
      Total(cfg, only, st2) <= Budget(cfg, only, st2.next)
    decreases |run|
  {
    hide Inv, CanDo, Do, Total, Budget;
    if run != [] {
      StepKeepsInv(cfg, st, run[0]);
      StepWork(cfg, only, st, run[0]);
      BudgetStep(cfg, only, st.next);
      RunWork(cfg, only, Do(cfg, st, run[0]), run[1..]);
    }
  }

  /**
   * In every run, each submitted query is sent at most `MaxSends` times, whatever is submitted later,
   * and nothing else is sent.
   */
  lemma SendsAreBounded(cfg: Config, run: seq<Event>, key: nat)
    requires ValidConfig(cfg) && CanRun(cfg, FRESH, run)
    ensures var st := After(cfg, FRESH, run);
      && multiset(st.sends)[key] <= (if key < st.next then MaxSends(cfg) else 0)
      && |st.sends| <= st.next * MaxSends(cfg)
  {
    assert Inv(cfg, FRESH);
    var st := After(cfg, FRESH, run);
    RunWork(cfg, Some(key), FRESH, run);
    CountMeans(Some(key), st.sends);
    RunWork(cfg, None, FRESH, run);
    CountMeans(None, st.sends);
  }

  // -------------------------------------------------------------------------
  // Timeouts
  // -------------------------------------------------------------------------

  function Moved(o: Outcome): seq<Query> {
    if o.Sent? then [o.q] else []
  }

  function Closed(key: nat, o: Outcome): seq<End> {
    if o.Ends? then [End(key, o.status)] else []
  }

  /** The queries that are sent again, and the ends of the others. */
  function Resent(cfg: Config, due: seq<Query>, now: int, fails: set<nat>): seq<Query> {
    if due == [] then []
    else
      var o := Send(cfg, due[0], now, due[0].key !in fails);
      Moved(o) + Resent(cfg, due[1..], now, fails)
  }

  function Ended(cfg: Config, due: seq<Query>, now: int, fails: set<nat>): seq<End> {
    if due == [] then []
    else
      var o := Send(cfg, due[0], now, due[0].key !in fails);
      Closed(due[0].key, o) + Ended(cfg, due[1..], now, fails)
  }

  /** Whose transmissions these are. */
  function SentFor(cfg: Config, due: seq<Query>, now: int, fails: set<nat>): seq<nat> {
    if due == [] then []
    else
      var o := Send(cfg, due[0], now, due[0].key !in fails);
      Key(due[0].key, o) + SentFor(cfg, due[1..], now, fails)
  }

  function Key(key: nat, o: Outcome): seq<nat> {
    if o.Sent? then [key] else []
  }

  lemma InsertMultiset(s: seq<Query>, q: Query)
    ensures multiset(Insert(s, q)) == multiset(s) + multiset{q}
  {
    hide Place;
    var n := Place(s, q.deadline);
    assert s == s[..n] + s[n..];
  }

  lemma SettleMeans(st: State, key: nat, o: Outcome)
    requires !o.Kept?
    ensures var st2 := Settle(st, key, o);
      && multiset(st2.active) == multiset(st.active) + multiset(Moved(o))
      && st2.ended == st.ended + Closed(key, o)
      && st2.sends == st.sends + Key(key, o)
      && st2.cancelled == st.cancelled && st2.next == st.next
  {
    hide Insert;
    if o.Sent? {
      InsertMultiset(st.active, o.q);
    }
  }

  lemma {:induction false} PassMeans(cfg: Config, due: seq<Query>, st: State, now: int, fails: set<nat>)
    ensures var st2 := Pass(cfg, due, st, now, fails);
      && multiset(st2.active) == multiset(st.active) + multiset(Resent(cfg, due, now, fails))
      && st2.ended == st.ended + Ended(cfg, due, now, fails)
      && st2.sends == st.sends + SentFor(cfg, due, now, fails)
      && st2.cancelled == st.cancelled && st2.next == st.next
    decreases |due|
  {
    hide Send, Settle, Moved, Closed, Key;
    if due != [] {
      var o := Send(cfg, due[0], now, due[0].key !in fails);
      SendNeverKeeps(cfg, due[0], now, due[0].key !in fails);
      SettleMeans(st, due[0].key, o);
      PassMeans(cfg, due[1..], Settle(st, due[0].key, o), now, fails);
    }
  }

  lemma SendNeverKeeps(cfg: Config, q: Query, now: int, ok: bool)
    ensures !Send(cfg, q, now, ok).Kept?
  {
    hide FindServ;
  }

  /** Exactly the queries that are due are sent or ended, once each; the others stay. */
  lemma TimeoutsHandlesDue(cfg: Config, st: State, now: int, fails: set<nat>)
    requires ValidConfig(cfg) && Inv(cfg, st)
    ensures var n, st2 := Place(st.active, now), Timeouts(cfg, st, now, fails);
      && (forall i | 0 <= i < |st.active| :: i < n <==> st.active[i].deadline <= now)
      && multiset(st2.active) == multiset(st.active[n..]) + multiset(Resent(cfg, st.active[..n], now, fails))
      && st2.ended == st.ended + Ended(cfg, st.active[..n], now, fails)
      && st2.sends == st.sends + SentFor(cfg, st.active[..n], now, fails)
      && st2.cancelled == st.cancelled && st2.next == st.next
  {
    hide Ledger, KeysBelow, ValidQuery, Pass, Resent, Ended, SentFor;
    var n := Place(st.active, now);
    PassMeans(cfg, st.active[..n], st.(active := st.active[n..]), now, fails);
  }

  lemma {:induction false} DueSplits(cfg: Config, due: seq<Query>, now: int, fails: set<nat>, i: nat)
    requires i < |due|
    ensures var q := due[i];
      if q.key !in fails && !Exhausted(cfg, q) then
        q.key in SentFor(cfg, due, now, fails) && Send(cfg, q, now, true).Sent?
        && Send(cfg, q, now, true).q in Resent(cfg, due, now, fails)
      else End(q.key, TempFail) in Ended(cfg, due, now, fails)
    decreases |due|
  {
    hide Send, Exhausted;
    SendFailsIff(cfg, due[0], now, due[0].key !in fails);
    SendFailsIff(cfg, due[0], now, true);
    if i > 0 {
      DueSplits(cfg, due[1..], now, fails, i - 1);
    }
  }

  /** A query that is due is sent, if it can be, and its callback is told of the failure if not. */
  lemma DueMeans(cfg: Config, st: State, now: int, fails: set<nat>, i: nat)
    requires ValidConfig(cfg) && Inv(cfg, st) && i < |st.active| && st.active[i].deadline <= now
    ensures var q, st2 := st.active[i], Timeouts(cfg, st, now, fails);
      && |st.sends| <= |st2.sends| && |st.ended| <= |st2.ended|
      && if q.key !in fails && !Exhausted(cfg, q) then
           q.key in st2.sends[|st.sends|..] && Send(cfg, q, now, true).Sent? && Send(cfg, q, now, true).q in st2.active
         else End(q.key, TempFail) in st2.ended[|st.ended|..]
  {
    hide Inv, Timeouts, Resent, Ended, SentFor, Send, Exhausted;
    TimeoutsHandlesDue(cfg, st, now, fails);
    var due := st.active[..Place(st.active, now)];
    assert due[i] == st.active[i];
    DueSplits(cfg, due, now, fails, i);
    var st2 := Timeouts(cfg, st, now, fails);
    assert st2.sends[|st.sends|..] == SentFor(cfg, due, now, fails);
    assert st2.ended[|st.ended|..] == Ended(cfg, due, now, fails);
    assert forall x :: x in Resent(cfg, due, now, fails) ==> x in multiset(st2.active);
  }

  /** A submitted query is due before all others, and nothing else changes. */
  lemma SubmitMeans(cfg: Config, st: State, orig: Name, nosrch: bool, ndots: nat)
    requires ValidConfig(cfg) && Inv(cfg, st) && WellFormed(orig)
    ensures var st2 := Do(cfg, st, Submit(orig, nosrch, ndots));
      && |st2.active| == |st.active| + 1 && st2.active[1..] == st.active
      && st2.active[0] == NewQuery(cfg, st.next, orig, nosrch, ndots) && st2.active[0].deadline == 0
      && Place(st2.active, 0) > 0
      && st2 == st.(active := st2.active, next := st.next + 1)
  {
    hide ValidQuery, NewQuery;
    NewQueryValid(cfg, st.next, orig, nosrch, ndots);
    StepKeepsInv(cfg, st, Submit(orig, nosrch, ndots));
  }

  /** A reply touches only its query: that one is sent again once, or waits on, or its callback is called once. */
  lemma ReceiveMeans(cfg: Config, st: State, k: nat, servi: nat, reply: Reply, at: int, ok: bool)
    requires ValidConfig(cfg) && CanDo(st, Receive(k, servi, reply, at, ok))
    ensures var q := st.active[k];
      var o, st2 := HandleReply(cfg, q, servi, reply, at, ok), Do(cfg, st, Receive(k, servi, reply, at, ok));
      && multiset(st2.active) + multiset{q} == multiset(st.active) + (if o.Ends? then multiset{} else multiset{o.q})
      && st2.ended == st.ended + (if o.Ends? then [End(q.key, o.status)] else [])
      && st2.sends == st.sends + (if o.Sent? then [q.key] else [])
      && st2.cancelled == st.cancelled && st2.next == st.next
  {
    hide HandleReply, Apply;
    ApplyMeans(st, k, HandleReply(cfg, st.active[k], servi, reply, at, ok));
  }

  lemma ApplyMeans(st: State, k: nat, o: Outcome)
    requires k < |st.active|
    ensures var q, st2 := st.active[k], Apply(st, k, o);
      && multiset(st2.active) + multiset{q} == multiset(st.active) + (if o.Ends? then multiset{} else multiset{o.q})
      && st2.ended == st.ended + (if o.Ends? then [End(q.key, o.status)] else [])
      && st2.sends == st.sends + (if o.Sent? then [q.key] else [])
      && st2.cancelled == st.cancelled && st2.next == st.next
  {
    hide Settle, Without, Moved, Closed, Key;
    RemoveMultiset(st.active, k);
    if o.Kept? {
      var s := st.active[k := o.q];
      RemoveMultiset(s, k);
      RemoveReplaced(st.active, k, o.q);
    } else {
      SettleMeans(st.(active := Without(st.active, k)), st.active[k].key, o);
      MovedMeans(st.active[k].key, o);
    }
  }

  lemma MovedMeans(key: nat, o: Outcome)
    requires !o.Kept?
    ensures multiset(Moved(o)) == if o.Ends? then multiset{} else multiset{o.q}
    ensures Closed(key, o) == if o.Ends? then [End(key, o.status)] else []
    ensures Key(key, o) == if o.Sent? then [key] else []
  {
  }

  lemma RemoveMultiset(s: seq<Query>, k: nat)
    requires k < |s|
    ensures multiset(s) == multiset(Without(s, k)) + multiset{s[k]}
  {
    SplitAt(s, k);
    assert Without(s, k) == s[..k] + s[k + 1..];
  }

  /** A cancelled query leaves the list, and no callback is called. */
  lemma CancelMeans(cfg: Config, st: State, k: nat)
    requires ValidConfig(cfg) && CanDo(st, Cancel(k))
    ensures var st2 := Do(cfg, st, Cancel(k));
      && multiset(st2.active) + multiset{st.active[k]} == multiset(st.active)
      && st2.cancelled == st.cancelled + [st.active[k].key]
      && st2 == st.(active := st2.active, cancelled := st2.cancelled)
  {
    RemoveMultiset(st.active, k);
  }

  predicate NoneDue(s: seq<Query>, now: int) {
    forall i | 0 <= i < |s| :: s[i].deadline > now
  }

  lemma {:induction false} PassLeavesNoneDue(cfg: Config, due: seq<Query>, st: State, now: int, fails: set<nat>)
    requires ValidConfig(cfg) && AllValid(cfg, due) && NoneDue(st.active, now)
    ensures NoneDue(Pass(cfg, due, st, now, fails).active, now)
    decreases |due|
  {
    hide ValidQuery, Send, Less;
    if due != [] {
      var o := Send(cfg, due[0], now, due[0].key !in fails);
      SendProgress(cfg, due[0], now, due[0].key !in fails);
      PassLeavesNoneDue(cfg, due[1..], Settle(st, due[0].key, o), now, fails);
    }
  }

  /** Afterwards nothing is due, so a second call at the same time does nothing. */
  lemma TimeoutsSettles(cfg: Config, st: State, now: int, fails: set<nat>)
    requires ValidConfig(cfg) && Inv(cfg, st)
    ensures NoneDue(Timeouts(cfg, st, now, fails).active, now)
    ensures Timeouts(cfg, Timeouts(cfg, st, now, fails), now, fails) == Timeouts(cfg, st, now, fails)
  {
    hide Ledger, KeysBelow, ValidQuery, Pass;
    var n := Place(st.active, now);
    PassLeavesNoneDue(cfg, st.active[..n], st.(active := st.active[n..]), now, fails);
    TimeoutsIdle(cfg, Timeouts(cfg, st, now, fails), now, fails);
  }

  lemma TimeoutsIdle(cfg: Config, st: State, now: int, fails: set<nat>)
    requires NoneDue(st.active, now)
    ensures Timeouts(cfg, st, now, fails) == st
  {
    PlaceIsUnique(st.active, now, 0);
    assert st.active[..0] == [] && st.active[0..] == st.active;
  }

  predicate Overdue(s: seq<Query>, now: int) {
    forall i | 0 <= i < |s| :: s[i].deadline <= now
  }

  /** How often in a run `dns_timeouts` is called after every deadline. */
  function Timely(cfg: Config, st: State, run: seq<Event>): nat
    requires ValidConfig(cfg) && CanRun(cfg, st, run)
    decreases |run|
  {
    if run == [] then 0
    else
      (if run[0].Expire? && Overdue(st.active, run[0].now) then 1 else 0) + Timely(cfg, Do(cfg, st, run[0]), run[1..])
  }

  predicate NoSubmit(run: seq<Event>) {
    forall i | 0 <= i < |run| :: !run[i].Submit?
  }

  /** Whatever replies come and whatever is cancelled, enough calls after the deadlines end every query. */
  lemma {:induction false} EveryQueryEnds(cfg: Config, st: State, run: seq<Event>)
    requires ValidConfig(cfg) && Inv(cfg, st) && CanRun(cfg, st, run) && NoSubmit(run)
    requires Timely(cfg, st, run) >= Work(cfg, None, st.active)
    ensures After(cfg, st, run).active == []
    decreases |run|
  {
    hide Inv, Do, CanDo, Overdue;
    if st.active == [] {
      EmptyStays(cfg, st, run);
    } else if run == [] {
      WorkPositive(cfg, st);
    } else {
      StepKeepsInv(cfg, st, run[0]);
      StepWork(cfg, None, st, run[0]);
      if run[0].Expire? && Overdue(st.active, run[0].now) {
        OverdueStep(cfg, st, run[0].now, run[0].fails);
      }
      EveryQueryEnds(cfg, Do(cfg, st, run[0]), run[1..]);
    }
  }

  lemma OverdueStep(cfg: Config, st: State, now: int, fails: set<nat>)
    requires ValidConfig(cfg) && Inv(cfg, st) && CanDo(st, Expire(now, fails))
    requires Overdue(st.active, now) && st.active != []
    ensures Work(cfg, None, Do(cfg, st, Expire(now, fails)).active) < Work(cfg, None, st.active)
  {
    hide ValidQuery, Timeouts, Ledger, KeysBelow, Work;
    TimeoutsWork(cfg, None, st, now, fails);
    PlaceIsUnique(st.active, now, |st.active|);
  }

  lemma WorkPositive(cfg: Config, st: State)
    requires ValidConfig(cfg) && Inv(cfg, st) && st.active != []
    ensures Work(cfg, None, st.active) > 0
  {
    hide ValidQuery, Rank, Ledger, KeysBelow, Sorted;
  }

  lemma {:induction false} EmptyStays(cfg: Config, st: State, run: seq<Event>)
    requires ValidConfig(cfg) && CanRun(cfg, st, run) && NoSubmit(run) && st.active == []
    ensures After(cfg, st, run).active == []
    decreases |run|
  {
    hide Timeouts;
    if run != [] {
      if run[0].Expire? {
        TimeoutsIdle(cfg, st, run[0].now, run[0].fails);
      }
      EmptyStays(cfg, Do(cfg, st, run[0]), run[1..]);
    }
  }

  // -------------------------------------------------------------------------
  // The loop of `dns_timeouts`
  // -------------------------------------------------------------------------

  /** The head of the list is still to be handled, the rest is not due, and the `goal` is where this leads. */
  ghost predicate Looping(
      cfg: Config, st: State, due: seq<Query>, rest: seq<Query>, now: int, fails: set<nat>, goal: State) {
    && st.active == due + rest
    && AllValid(cfg, due)
    && (forall i | 0 <= i < |due| :: due[i].deadline <= now)
    && NoneDue(rest, now)
    && Pass(cfg, due, st.(active := rest), now, fails) == goal
  }

  lemma LoopStarts(cfg: Config, st: State, now: int, fails: set<nat>)
    requires Sorted(st.active) && AllValid(cfg, st.active)
    ensures var n := Place(st.active, now);
      Looping(cfg, st, st.active[..n], st.active[n..], now, fails, Timeouts(cfg, st, now, fails))
  {
    hide Sorted, AllValid, NoneDue, Pass, Place;
    var n := Place(st.active, now);
    SplitKeeps(cfg, st.active, n);
    DuePrefix(st.active, now);
  }

  lemma DuePrefix(s: seq<Query>, now: int)
    requires Sorted(s)
    ensures var n := Place(s, now);
      && s == s[..n] + s[n..]
      && (forall i | 0 <= i < n :: s[..n][i].deadline <= now)
      && NoneDue(s[n..], now)
  {
    hide Place;
    var n := Place(s, now);
    forall i | 0 <= i < n
      ensures s[..n][i].deadline <= now
    {
      assert s[i].deadline <= s[n - 1].deadline;
    }
  }

  lemma SettleBehind(st: State, a: seq<Query>, b: seq<Query>, key: nat, o: Outcome)
    requires !o.Kept?
    requires o.Sent? ==> forall i | 0 <= i < |a| :: a[i].deadline <= o.q.deadline
    ensures var behind := Settle(st.(active := b), key, o);
      Settle(st.(active := a + b), key, o) == behind.(active := a + behind.active)
  {
    hide Insert;
    if o.Sent? {
      InsertBehind(a, b, o.q);
    }
  }

  lemma LoopStep(
      cfg: Config, st: State, due: seq<Query>, rest: seq<Query>, now: int, fails: set<nat>, goal: State)
    requires ValidConfig(cfg) && Looping(cfg, st, due, rest, now, fails, goal) && due != []
    ensures st.active != [] && st.active[0] == due[0]
    ensures var o := Send(cfg, due[0], now, due[0].key !in fails);
      var st2 := Settle(st.(active := Without(st.active, 0)), due[0].key, o);
      var rest2 := Settle(st.(active := rest), due[0].key, o).active;
      Looping(cfg, st2, due[1..], rest2, now, fails, goal)
  {
    hide ValidQuery, Send, Less, ValidConfig;
    var o := Send(cfg, due[0], now, due[0].key !in fails);
    SendProgress(cfg, due[0], now, due[0].key !in fails);
    assert Without(st.active, 0) == due[1..] + rest;
    SettleBehind(st, due[1..], rest, due[0].key, o);
    SettleNotDue(st.(active := rest), due[0].key, o, now);
  }

  lemma SettleNotDue(st: State, key: nat, o: Outcome, now: int)
    requires !o.Kept? && NoneDue(st.active, now) && (o.Sent? ==> o.q.deadline > now)
    ensures NoneDue(Settle(st, key, o).active, now)
  {
  }

  lemma LoopHead(
      cfg: Config, st: State, due: seq<Query>, rest: seq<Query>, now: int, fails: set<nat>, goal: State)
    requires Looping(cfg, st, due, rest, now, fails, goal)
    ensures due == [] ==> st == goal
    ensures st.active == [] ==> due == []
    ensures st.active != [] ==> (st.active[0].deadline > now <==> due == [])
  {
    hide ValidQuery, Send;
  }
}
