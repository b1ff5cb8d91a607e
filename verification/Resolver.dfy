/** The resolver's code: queries that are changed in place, and the list of the active ones. */
module Resolver {
  import opened DomainName
  import R = QueryRules
  import S = ResolverRuns
  import opened Sequences

  class Query {
    const key: nat
    const orig: Name
    var dn: Name
    var servi: nat
    var servwait: set<nat>
    var servskip: set<nat>
    var servnEDNS0: set<nat>
    var tries: nat
    var nxt: nat
    var asisDone: bool
    var seenNodata: bool
    var deadline: int

    constructor (key: nat, orig: Name)
      ensures Value() == R.Query(key, orig, orig, 0, {}, {}, {}, 0, 0, false, false, 0)
    {
      this.key, this.orig, dn := key, orig, orig;
      servi, servwait, servskip, servnEDNS0 := 0, {}, {}, {};
      tries, nxt, asisDone, seenNodata, deadline := 0, 0, false, false, 0;
    }

    function Value(): R.Query
      reads this
    {
      R.Query(key, orig, dn, servi, servwait, servskip, servnEDNS0, tries, nxt, asisDone, seenNodata, deadline)
    }
  }

  function Values(qs: seq<Query>): (s: seq<R.Query>)
    reads qs
    ensures |s| == |qs|
    ensures forall i | 0 <= i < |qs| :: s[i] == qs[i].Value()
  {
    if qs == [] then [] else Values(qs[..|qs| - 1]) + [qs[|qs| - 1].Value()]
  }

  predicate Distinct(qs: seq<Query>) {
    forall i, j | 0 <= i < j < |qs| :: qs[i] != qs[j]
  }

  lemma RestIsOlder(qs: seq<Query>, k: nat)
    requires k < |qs|
    ensures forall p | p in Without(qs, k) :: p in qs
  {
  }

  lemma ValuesRemove(qs: seq<Query>, k: nat)
    requires k < |qs|
    ensures Values(Without(qs, k)) == Without(Values(qs), k)
  {
    hide Values, Query.Value;
    ValuesSplit(qs, k);
    ValuesSplit(qs, k + 1);
    ValuesAppend(qs[..k], qs[k + 1..]);
  }

  lemma ValuesAppend(a: seq<Query>, b: seq<Query>)
    ensures Values(a + b) == Values(a) + Values(b)
  {
    hide Values, Query.Value;
  }

  lemma ValuesJoin(qs: seq<Query>, k: nat)
    requires k < |qs|
    ensures Values(qs) == Values(Without(qs, k))[..k] + [qs[k].Value()] + Values(Without(qs, k))[k..]
  {
    hide Values, Query.Value;
    ValuesRemove(qs, k);
    SplitAt(Values(qs), k);
    assert Without(Values(qs), k)[..k] == Values(qs)[..k];
    assert Without(Values(qs), k)[k..] == Values(qs)[k + 1..];
  }

  lemma Replaced<T>(s: seq<T>, k: nat, x: T, y: T)
    requires k <= |s|
    ensures (s[..k] + [x] + s[k..])[k := y] == s[..k] + [y] + s[k..]
  {
  }

  lemma ValuesSplit(qs: seq<Query>, n: nat)
    requires n <= |qs|
    ensures Values(qs[..n]) == Values(qs)[..n] && Values(qs[n..]) == Values(qs)[n..]
  {
    hide Values, Query.Value;
  }

  lemma ValuesInsert(qs: seq<Query>, q: Query, n: nat)
    requires n <= |qs| && n == S.Place(Values(qs), q.Value().deadline)
    ensures Values(With(qs, n, q)) == S.Insert(Values(qs), q.Value())
  {
    hide S.Place, Values, Query.Value;
    ValuesAppend(qs[..n] + [q], qs[n..]);
    ValuesAppend(qs[..n], [q]);
    ValuesSplit(qs, n);
    assert Values([q]) == [q.Value()];
  }

  lemma DistinctRemove(qs: seq<Query>, k: nat)
    requires Distinct(qs) && k < |qs|
    ensures Distinct(Without(qs, k)) && qs[k] !in Without(qs, k)
    ensures forall i | 0 <= i < |qs| && qs[i] == qs[k] :: i == k
  {
  }

  lemma DistinctInsert(qs: seq<Query>, q: Query, n: nat)
    requires Distinct(qs) && q !in qs && n <= |qs|
    ensures Distinct(With(qs, n, q))
    ensures forall p | p in With(qs, n, q) :: p == q || p in qs
  {
  }

  /** The context: `ended` records the calls of callbacks, and `sends` records whose transmissions. */
  class Context {
    const cfg: R.Config
    var active: seq<Query>
    var nactive: nat
    var ended: seq<S.End>
    var cancelled: seq<nat>
    var next: nat
    var sends: seq<nat>

    constructor (cfg: R.Config)
      requires R.ValidConfig(cfg)
      ensures Valid() && State() == S.FRESH && this.cfg == cfg
    {
      this.cfg, active, nactive := cfg, [], 0;
      ended, cancelled, next, sends := [], [], 0, [];
    }

    function State(): S.State
      reads this, active
    {
      S.State(Values(active), ended, cancelled, next, sends)
    }

    predicate Linked()
      reads this, active
    {
      R.ValidConfig(cfg) && Distinct(active) && nactive == |active|
    }

    ghost predicate Valid()
      reads this, active
    {
      Linked() && S.Inv(cfg, State())
    }

    /** `dns_find_serv`. */
    method FindServ(q: Query) returns (found: bool)
      modifies q`servi
      ensures q.Value() == R.FindServ(cfg, old(q.Value()))
      ensures found == (q.servi < cfg.nserv)
    {
      while q.servi < cfg.nserv
        invariant R.FindServ(cfg, q.Value()) == R.FindServ(cfg, old(q.Value()))
        decreases cfg.nserv - q.servi
      {
        if q.servi !in q.servskip {
          return true;
        }
        q.servi := q.servi + 1;
      }
      return false;
    }

    /** The loop of `dns_next_srch`: the next suffix that fits and is not the as-is name again. */
    method FindSuffix(q: Query) returns (found: bool)
      requires R.ValidConfig(cfg) && ValidLabels(q.orig)
      modifies q`nxt
      ensures R.NextSrch(cfg, q.Value()) == R.NextSrch(cfg, old(q.Value()))
      ensures found == (q.nxt < |cfg.suffixes|)
      ensures found ==> R.Usable(q.Value(), cfg.suffixes[q.nxt])
    {
      hide Body, Encode;
      while true
        invariant R.NextSrch(cfg, q.Value()) == R.NextSrch(cfg, old(q.Value()))
        decreases |cfg.suffixes| - q.nxt
      {
        if q.nxt >= |cfg.suffixes| {
          return false;
        }
        var dnl := |Encode(cfg.suffixes[q.nxt])|;
        if dnl + |Body(q.orig)| <= MAX_DN && (cfg.suffixes[q.nxt] != [] || !q.asisDone) {
          return true;
        }
        q.nxt := q.nxt + 1;
      }
    }

    /** `dns_next_srch`, with what `dns_newid` resets. */
    method NextSrch(q: Query) returns (found: bool)
      requires R.ValidConfig(cfg) && ValidLabels(q.orig)
      modifies q
      ensures (found, q.Value()) == R.NextSrch(cfg, old(q.Value()))
      ensures q.seenNodata == old(q.seenNodata)
    {
      hide R.Usable;
      found := FindSuffix(q);
      if !found {
        return;
      }
      q.dn := q.orig + cfg.suffixes[q.nxt];
      if cfg.suffixes[q.nxt] == [] {
        q.asisDone := true;
      }
      q.nxt := q.nxt + 1;
      q.tries, q.servi := 0, 0;
      q.servwait, q.servskip, q.servnEDNS0 := {}, {}, {};
    }

    /** The state with these queries in the list instead. */
    function StateWith(qs: seq<Query>): S.State
      reads this, qs
    {
      S.State(Values(qs), ended, cancelled, next, sends)
    }

    /** `qlist_remove` on the active list. */
    method Unlink(q: Query, ghost k: nat)
      requires Distinct(active) && k < |active| && active[k] == q
      modifies this`active
      ensures active == Without(old(active), k) && q !in active && Distinct(active)
    {
      hide Distinct;
      DistinctRemove(active, k);
      var i :| 0 <= i < |active| && active[i] == q;
      active := active[..i] + active[i + 1..];
    }

    /** `dns_end_query`. */
    method EndQuery(q: Query, status: R.Status, ghost k: nat)
      requires Linked() && k < |active| && active[k] == q
      modifies this
      ensures Linked() && active == Without(old(active), k)
      ensures State() == S.Settle(old(StateWith(Without(active, k))), q.key, R.Ends(status))
    {
      hide Values, Distinct, Without;
      RestIsOlder(active, k);
      ghost var rest := Without(active, k);
      ghost var others := Values(rest);
      nactive := nactive - 1;
      Unlink(q, k);
      ended := ended + [S.End(q.key, status)];
      assert Values(rest) == others;
    }

    /** The search from the tail in `dns_send_this`. */
    method FindPlace(q: Query) returns (n: nat)
      ensures n <= |active| && n == S.Place(Values(active), q.Value().deadline)
    {
      n := |active|;
      while n > 0
        invariant 0 <= n <= |active|
        invariant forall i | n <= i < |active| :: active[i].deadline > q.deadline
      {
        if active[n - 1].deadline <= q.deadline {
          break;
        }
        n := n - 1;
      }
      S.PlaceIsUnique(Values(active), q.deadline, n);
    }

    /** The move of a query to the place for its new deadline. */
    method Relink(q: Query, ghost k: nat)
      requires Distinct(active) && k < |active| && active[k] == q
      modifies this`active
      ensures Distinct(active) && |active| == old(|active|) && forall p | p in active :: p in old(active)
      ensures Values(active) == S.Insert(old(Values(Without(active, k))), q.Value())
    {
      hide Values, S.Place, S.Insert, Distinct, Without;
      RestIsOlder(active, k);
      ghost var rest := Without(active, k);
      ghost var others := Values(rest);
      Unlink(q, k);
      var n := FindPlace(q);
      assert Values(rest) == others;
      ValuesInsert(rest, q, n);
      DistinctInsert(rest, q, n);
      active := active[..n] + [q] + active[n..];
    }

    /** `dns_send_this`; `ok` says that one of the ten calls of `sendto` succeeds. */
    method SendThis(q: Query, server: nat, now: int, ok: bool, ghost k: nat) returns (sent: bool)
      requires Linked() && k < |active| && active[k] == q
      modifies this, q
      ensures Linked() && forall p | p in active :: p in old(active)
      ensures sent == R.SendThis(cfg, old(q.Value()), server, now, ok).Sent?
      ensures !R.SendThis(cfg, old(q.Value()), server, now, ok).Kept?
      ensures State() == S.Settle(
        old(StateWith(Without(active, k))), q.key, R.SendThis(cfg, old(q.Value()), server, now, ok))
    {
      hide Values, Without, S.Place, S.Insert, Distinct, R.FindServ, R.ValidConfig;
      DistinctRemove(active, k);
      RestIsOlder(active, k);
      ghost var rest := Without(active, k);
      ghost var others := Values(rest);
      if !ok {
        EndQuery(q, R.TempFail, k);
        return false;
      }
      sends := sends + [q.key];
      q.servwait := q.servwait + {server};
      var found := FindServ(q);
      q.deadline := now + if found then 1 else cfg.timeout * R.Pow2(q.tries);
      assert Values(rest) == others;
      Relink(q, k);
      return true;
    }

    /** `dns_send`. */
    method Send(q: Query, now: int, ok: bool, ghost k: nat)
      requires Linked() && k < |active| && active[k] == q
      modifies this, q
      ensures Linked() && forall p | p in active :: p in old(active)
      ensures State() == S.Settle(old(StateWith(Without(active, k))), q.key, R.Send(cfg, old(q.Value()), now, ok))
      ensures !R.Send(cfg, old(q.Value()), now, ok).Kept?
    {
      hide Values, Without, S.Settle, Distinct, R.FindServ, R.SendThis, R.ValidConfig;
      DistinctRemove(active, k);
      RestIsOlder(active, k);
      ghost var rest := Without(active, k);
      ghost var others := Values(rest);
      var found := NextServ(q);
      assert Values(rest) == others;
      if !found {
        EndQuery(q, R.TempFail, k);
        return;
      }
      var server := q.servi;
      q.servi := q.servi + 1;
      assert Values(rest) == others;
      var sent := SendThis(q, server, now, ok, k);
    }

    /** The first part of `dns_send`: the next server of this round, or the first of a new round. */
    method NextServ(q: Query) returns (found: bool)
      modifies q`servi, q`tries
      ensures var q1 := R.FindServ(cfg, old(q.Value()));
        if q1.servi < cfg.nserv then found && q.Value() == q1
        else
          var q3 := R.FindServ(cfg, q1.(servi := 0, tries := q1.tries + 1));
          found == (q1.tries + 1 < cfg.ntries && q3.servi < cfg.nserv) && (found ==> q.Value() == q3)
    {
      hide R.FindServ;
      found := FindServ(q);
      if !found {
        q.servi := 0;
        q.tries := q.tries + 1;
        if q.tries < cfg.ntries {
          found := FindServ(q);
        }
      }
    }

    /** The branch for a reply without answers. */
    method NoDataReply(q: Query, now: int, ok: bool, ghost k: nat)
      requires Linked() && k < |active| && active[k] == q && ValidLabels(q.orig)
      modifies this, q
      ensures Linked() && forall p | p in active :: p in old(active)
      ensures State() ==
              S.Settle(old(StateWith(Without(active, k))), q.key, R.AfterNoData(cfg, old(q.Value()), now, ok))
      ensures !R.AfterNoData(cfg, old(q.Value()), now, ok).Kept?
    {
      hide Values, Without, S.Settle, Distinct, R.NextSrch, R.Send, R.ValidConfig;
      DistinctRemove(active, k);
      RestIsOlder(active, k);
      ghost var rest := Without(active, k);
      ghost var others := Values(rest);
      var found := NextSrch(q);
      if found {
        q.seenNodata := true;
        assert Values(rest) == others;
        Send(q, now, ok, k);
      } else {
        assert Values(rest) == others;
        EndQuery(q, R.NoData, k);
      }
    }

    /** The branch for a name that does not exist. */
    method NameErrorReply(q: Query, now: int, ok: bool, ghost k: nat)
      requires Linked() && k < |active| && active[k] == q && ValidLabels(q.orig)
      modifies this, q
      ensures Linked() && forall p | p in active :: p in old(active)
      ensures State() ==
              S.Settle(old(StateWith(Without(active, k))), q.key, R.AfterNameError(cfg, old(q.Value()), now, ok))
      ensures !R.AfterNameError(cfg, old(q.Value()), now, ok).Kept?
    {
      hide Values, Without, S.Settle, Distinct, R.NextSrch, R.Send, R.ValidConfig;
      DistinctRemove(active, k);
      RestIsOlder(active, k);
      ghost var rest := Without(active, k);
      ghost var others := Values(rest);
      var found := NextSrch(q);
      assert Values(rest) == others;
      if found {
        Send(q, now, ok, k);
      } else {
        EndQuery(q, if q.seenNodata then R.NoData else R.NxDomain, k);
      }
    }

    /** What `dns_ioevent` does with a reply from `server` to the query at place `k`. */
    method HandleReply(q: Query, server: nat, reply: R.Reply, now: int, ok: bool, ghost k: nat)
      requires Linked() && k < |active| && active[k] == q && ValidLabels(q.orig)
      modifies this, q
      ensures Linked() && forall p | p in active :: p in old(active)
      ensures State() == S.Apply(old(State()), k, R.HandleReply(cfg, old(q.Value()), server, reply, now, ok))
    {
      hide Values, Without, S.Settle, Distinct, R.AfterNoData, R.AfterNameError, R.Send, R.SendThis, R.ValidConfig;
      DistinctRemove(active, k);
      RestIsOlder(active, k);
      ValuesRemove(active, k);
      ValuesJoin(active, k);
      ghost var rest := Without(active, k);
      ghost var others := Values(rest);
      ghost var before := q.Value();
      if server !in q.servwait {
        return;
      }
      q.servwait := q.servwait - {server};
      match reply {
        case NoError(truncated, answers, parsed) =>
          if !truncated {
            assert Values(rest) == others;
            if answers == 0 {
              NoDataReply(q, now, ok, k);
            } else {
              EndQuery(q, R.Answer(parsed), k);
            }
            return;
          }
        case NameError =>
          assert Values(rest) == others;
          NameErrorReply(q, now, ok, k);
          return;
        case FormErrOrNotImpl =>
          if cfg.edns && server !in q.servnEDNS0 {
            q.servnEDNS0 := q.servnEDNS0 + {server};
            assert Values(rest) == others;
            var sent := SendThis(q, server, now, ok, k);
            return;
          }
        case OtherCode =>
      }
      q.servskip := q.servskip + {server};
      assert Values(rest) == others;
      if q.servwait == {} {
        Send(q, now, ok, k);
      } else {
        ValuesJoin(active, k);
        Replaced(others, k, before, q.Value());
      }
    }

    /** `dns_ioevent`, for one reply to the query at place `k`. */
    method Receive(q: Query, server: nat, reply: R.Reply, now: int, ok: bool, ghost k: nat)
      requires Valid() && k < |active| && active[k] == q && now >= 0
      modifies this, q
      ensures Valid()
      ensures old(S.CanDo(State(), S.Receive(k, server, reply, now, ok)))
      ensures State() == S.Do(cfg, old(State()), S.Receive(k, server, reply, now, ok))
    {
      hide S.Inv, S.Apply, Values, R.HandleReply, Distinct, R.ValidQuery;
      ghost var before := State();
      var event := S.Receive(k, server, reply, now, ok);
      assert ValidLabels(q.orig) by {
        S.InvMeans(cfg, before, k);
        ValidOrig(cfg, q.Value());
      }
      S.StepKeepsInv(cfg, before, event);
      HandleReply(q, server, reply, now, ok, k);
    }

    /** The first part of `dns_submit_dn`: the query and its first name. */
    method MakeQuery(orig: Name, nosrch: bool, ndots: nat) returns (q: Query)
      requires R.ValidConfig(cfg) && WellFormed(orig)
      ensures fresh(q) && q.Value() == R.NewQuery(cfg, next, orig, nosrch, ndots)
    {
      hide R.NextSrch, Body, Encode;
      q := new Query(next, orig);
      if nosrch || |orig| > ndots {
        q.nxt := if nosrch then |cfg.suffixes| - 1 else 0;
        q.asisDone := true;
      } else {
        var found := NextSrch(q);
      }
    }

    /** `dns_submit_dn`: the new query is at the head of the list, and due at once. */
    method Submit(orig: Name, nosrch: bool, ndots: nat) returns (q: Query)
      requires Valid() && WellFormed(orig)
      modifies this
      ensures Valid() && fresh(q) && active == [q] + old(active)
      ensures State() == S.Do(cfg, old(State()), S.Submit(orig, nosrch, ndots))
    {
      hide S.Inv, Values, R.NewQuery, R.ValidConfig, WellFormed;
      ghost var before := State();
      S.StepKeepsInv(cfg, before, S.Submit(orig, nosrch, ndots));
      q := MakeQuery(orig, nosrch, ndots);
      ValuesAppend([q], active);
      ValuesOne(q);
      active := [q] + active;
      nactive := nactive + 1;
      next := next + 1;
    }

    /** `dns_cancel`: the callback is not called. */
    method Cancel(q: Query, ghost k: nat)
      requires Valid() && k < |active| && active[k] == q
      modifies this
      ensures Valid() && active == Without(old(active), k)
      ensures State() == S.Do(cfg, old(State()), S.Cancel(k))
      ensures ended == old(ended) && cancelled == old(cancelled) + [q.key]
    {
      hide S.Inv, Values, Without, Without, Distinct;
      ghost var before := State();
      S.StepKeepsInv(cfg, before, S.Cancel(k));
      ValuesRemove(active, k);
      RestIsOlder(active, k);
      ghost var rest := Without(active, k);
      ghost var others := Values(rest);
      Unlink(q, k);
      nactive := nactive - 1;
      cancelled := cancelled + [q.key];
      assert Values(rest) == others;
    }

    /**
     * `dns_timeouts`: sends or ends what is due, and returns the smaller of `maxwait` and the wait
     * for the nearest deadline that is left; a negative `maxwait` stands for no limit.
     */
    method Timeouts(maxwait: int, now: int, fails: set<nat>) returns (r: int)
      requires Valid() && now >= 0
      modifies this, active
      ensures Valid()
      ensures State() == S.Timeouts(cfg, old(State()), now, fails)
      ensures active == [] ==> r == maxwait
      ensures active != [] ==>
        var w := active[0].deadline - now;
        && (if maxwait < 0 then r == w else r <= maxwait && r <= w && (r == maxwait || r == w))
        && forall i | 0 <= i < |active| :: now < active[0].deadline <= active[i].deadline
    {
      hide S.Inv, Values, Distinct, R.Send, S.Looping, S.Settle, S.Timeouts, Without, R.ValidConfig;
      ghost var before := State();
      ghost var goal := S.Timeouts(cfg, before, now, fails);
      S.TimeoutsKeeps(cfg, before, now, fails);
      ghost var due, rest := StartTimeouts(cfg, before, now, fails);
      r := maxwait;
      while active != []
        invariant Linked() && r == maxwait
        invariant forall q | q in active :: q in old(active)
        invariant S.Looping(cfg, State(), due, rest, now, fails, goal)
        decreases |due|
      {
        ghost var st := State();
        S.LoopHead(cfg, st, due, rest, now, fails, goal);
        var q := active[0];
        assert q in active;
        if q.deadline > now {
          var w := q.deadline - now;
          if maxwait < 0 || maxwait > w {
            r := w;
          }
          NearestDeadline(cfg, goal);
          break;
        }
        S.LoopStep(cfg, st, due, rest, now, fails, goal);
        ValuesRemove(active, 0);
        ghost var o := R.Send(cfg, due[0], now, due[0].key !in fails);
        rest := S.Settle(st.(active := rest), due[0].key, o).active;
        Send(q, now, q.key !in fails, 0);
        due := due[1..];
      }
      S.LoopHead(cfg, State(), due, rest, now, fails, goal);
    }
  }

  lemma StartTimeouts(cfg: R.Config, st: S.State, now: int, fails: set<nat>)
    returns (due: seq<R.Query>, rest: seq<R.Query>)
    requires S.Inv(cfg, st)
    ensures S.Looping(cfg, st, due, rest, now, fails, S.Timeouts(cfg, st, now, fails))
  {
    hide S.Looping, S.Timeouts;
    S.LoopStarts(cfg, st, now, fails);
    var n := S.Place(st.active, now);
    due, rest := st.active[..n], st.active[n..];
  }

  lemma NearestDeadline(cfg: R.Config, st: S.State)
    requires S.Inv(cfg, st)
    ensures forall i | 0 <= i < |st.active| :: st.active[0].deadline <= st.active[i].deadline
  {
    hide R.ValidQuery;
  }

  lemma ValuesOne(q: Query)
    ensures Values([q]) == [q.Value()]
  {
  }

  lemma ValidOrig(cfg: R.Config, q: R.Query)
    requires R.ValidQuery(cfg, q)
    ensures ValidLabels(q.orig)
  {
  }
}
