/** What happens to one resolver query: servers, tries and search suffixes, on values. */
module QueryRules {
  import opened DomainName

  /**
   * The settings, which cannot change while queries are active. The last suffix is the root: the name
   * is then asked for as it is.
   */
  datatype Config = Config(nserv: nat, ntries: nat, timeout: nat, edns: bool, suffixes: seq<Name>)

  predicate ValidConfig(cfg: Config) {
    && cfg.nserv >= 1 && cfg.ntries >= 1 && cfg.timeout >= 1
    && |cfg.suffixes| >= 1 && cfg.suffixes[|cfg.suffixes| - 1] == []
    && forall i | 0 <= i < |cfg.suffixes| :: ValidLabels(cfg.suffixes[i])
  }

  /** `key` tells queries apart; `nxt` counts the suffixes that were looked at. */
  datatype Query = Query(
    key: nat, orig: Name, dn: Name,
    servi: nat, servwait: set<nat>, servskip: set<nat>, servnEDNS0: set<nat>,
    tries: nat, nxt: nat, asisDone: bool, seenNodata: bool, deadline: int)

  datatype Status = TempFail | NxDomain | NoData | Answer(code: int)

  /** The query is sent again, or waits on, or its callback is called. */
  datatype Outcome = Sent(q: Query) | Kept(q: Query) | Ends(status: Status)

  datatype Reply =
    | NoError(truncated: bool, answers: nat, parsed: int)
    | NameError
    | FormErrOrNotImpl
    | OtherCode

  function Pow2(n: nat): (r: nat)
    ensures r >= 1
  {
    if n == 0 then 1 else 2 * Pow2(n - 1)
  }

  /** `dns_find_serv`: the first server from `servi` on that is not skipped. */
  function FindServ(cfg: Config, q: Query): (r: Query)
    ensures r == q.(servi := r.servi)
    ensures q.servi <= r.servi
    ensures q.servi <= cfg.nserv ==> r.servi <= cfg.nserv
    ensures r.servi < cfg.nserv ==> r.servi !in q.servskip
    ensures forall s | q.servi <= s < r.servi :: s in q.servskip
    ensures r.servi >= cfg.nserv || r.servi !in q.servskip
    decreases cfg.nserv - q.servi
  {
    if q.servi < cfg.nserv && q.servi in q.servskip then FindServ(cfg, q.(servi := q.servi + 1)) else q
  }

  /** `dns_send_this`; `ok` says that one of the ten calls of `sendto` succeeds. */
  function SendThis(cfg: Config, q: Query, servi: nat, now: int, ok: bool): Outcome {
    if !ok then Ends(TempFail)
    else
      var q1 := FindServ(cfg, q.(servwait := q.servwait + {servi}));
      Sent(q1.(deadline := now + if q1.servi < cfg.nserv then 1 else cfg.timeout * Pow2(q1.tries)))
  }

  /** `dns_send`. */
  function Send(cfg: Config, q: Query, now: int, ok: bool): Outcome {
    var q1 := FindServ(cfg, q);
    if q1.servi < cfg.nserv then
      SendThis(cfg, q1.(servi := q1.servi + 1), q1.servi, now, ok)
    else
      var q2 := q1.(servi := 0, tries := q1.tries + 1);
      var q3 := FindServ(cfg, q2);
      if q2.tries >= cfg.ntries || q3.servi >= cfg.nserv then Ends(TempFail)
      else SendThis(cfg, q3.(servi := q3.servi + 1), q3.servi, now, ok)
  }

  predicate Usable(q: Query, suffix: Name)
    requires ValidLabels(suffix) && ValidLabels(q.orig)
  {
    |Encode(suffix)| + |Body(q.orig)| <= MAX_DN && (suffix != [] || !q.asisDone)
  }

  /** The query for the name with this suffix, as `dns_newid` leaves it. */
  function Renamed(q: Query, suffix: Name): Query {
    q.(dn := q.orig + suffix, asisDone := q.asisDone || suffix == [], nxt := q.nxt + 1,
       tries := 0, servi := 0, servwait := {}, servskip := {}, servnEDNS0 := {})
  }

  /** `dns_next_srch`: whether there is a further name to ask for, and the query for it. */
  function NextSrch(cfg: Config, q: Query): (r: (bool, Query))
    requires ValidConfig(cfg) && ValidLabels(q.orig)
    decreases |cfg.suffixes| - q.nxt
  {
    if q.nxt >= |cfg.suffixes| then (false, q)
    else if Usable(q, cfg.suffixes[q.nxt]) then (true, Renamed(q, cfg.suffixes[q.nxt]))
    else NextSrch(cfg, q.(nxt := q.nxt + 1))
  }

  /** The last part of `dns_ioevent`: the server failed, and others may still answer. */
  function Unexpected(cfg: Config, q: Query, servi: nat, now: int, ok: bool): Outcome {
    var q1 := q.(servskip := q.servskip + {servi});
    if q1.servwait == {} then Send(cfg, q1, now, ok) else Kept(q1)
  }

  /** The name exists without data of this type. */
  function AfterNoData(cfg: Config, q: Query, now: int, ok: bool): Outcome
    requires ValidConfig(cfg) && ValidLabels(q.orig)
  {
    var next := NextSrch(cfg, q);
    if next.0 then Send(cfg, next.1.(seenNodata := true), now, ok) else Ends(NoData)
  }

  /** The name does not exist. */
  function AfterNameError(cfg: Config, q: Query, now: int, ok: bool): Outcome
    requires ValidConfig(cfg) && ValidLabels(q.orig)
  {
    var next := NextSrch(cfg, q);
    if next.0 then Send(cfg, next.1, now, ok) else Ends(if q.seenNodata then NoData else NxDomain)
  }

  /** A reply from server `servi` to the query's name: the switch of `dns_ioevent`. */
  function HandleReply(cfg: Config, q: Query, servi: nat, reply: Reply, now: int, ok: bool): Outcome
    requires ValidConfig(cfg) && ValidLabels(q.orig)
  {
    if servi !in q.servwait then Kept(q)
    else
      var q1 := q.(servwait := q.servwait - {servi});
      match reply
      case NoError(true, _, _) => Unexpected(cfg, q1, servi, now, ok)
      case NoError(false, answers, parsed) =>
        if answers == 0 then AfterNoData(cfg, q1, now, ok) else Ends(Answer(parsed))
      case NameError => AfterNameError(cfg, q1, now, ok)
      case FormErrOrNotImpl =>
        if cfg.edns && servi !in q1.servnEDNS0 then
          SendThis(cfg, q1.(servnEDNS0 := q1.servnEDNS0 + {servi}), servi, now, ok)
        else Unexpected(cfg, q1, servi, now, ok)
      case OtherCode => Unexpected(cfg, q1, servi, now, ok)
  }

  /** `dns_submit_dn` for a name of which `ndots` says whether to ask for it as it is first. */
  function NewQuery(cfg: Config, key: nat, orig: Name, nosrch: bool, ndots: nat): Query
    requires ValidConfig(cfg) && WellFormed(orig)
  {
    var q := Query(key, orig, orig, 0, {}, {}, {}, 0, 0, false, false, 0);
    if nosrch || |orig| > ndots then
      q.(nxt := if nosrch then |cfg.suffixes| - 1 else 0, asisDone := true)
    else NextSrch(cfg, q).1
  }

  // -------------------------------------------------------------------------
  // What every active query satisfies
  // -------------------------------------------------------------------------

  function Servers(n: nat): (s: set<nat>)
    ensures |s| == n
    ensures forall i: nat :: i in s <==> i < n
  {
    if n == 0 then {} else Servers(n - 1) + {n - 1}
  }

  predicate ValidQuery(cfg: Config, q: Query) {
    && WellFormed(q.orig) && WellFormed(q.dn)
    && q.servi <= cfg.nserv && q.tries < cfg.ntries && q.nxt <= |cfg.suffixes|
    && q.servwait <= Servers(cfg.nserv)
    && q.servskip <= Servers(cfg.nserv)
    && q.servnEDNS0 <= Servers(cfg.nserv)
    && (q.dn == q.orig || (q.nxt >= 1 && q.dn == q.orig + cfg.suffixes[q.nxt - 1]))
  }

  /** The next name: well formed, the original name before an unused suffix, and further in the list. */
  lemma {:induction false} NextSrchValid(cfg: Config, q: Query)
    requires ValidConfig(cfg) && ValidQuery(cfg, q)
    ensures var next := NextSrch(cfg, q);
      next.0 ==>
        && q.nxt < next.1.nxt <= |cfg.suffixes|
        && ValidQuery(cfg, next.1)
        && next.1.dn == q.orig + cfg.suffixes[next.1.nxt - 1]
        && next.1 == Renamed(q.(nxt := next.1.nxt - 1), cfg.suffixes[next.1.nxt - 1])
    decreases |cfg.suffixes| - q.nxt
  {
    hide Body, Encode, Servers, Usable;
    if q.nxt < |cfg.suffixes| {
      var suffix := cfg.suffixes[q.nxt];
      if Usable(q, suffix) {
        RenamedIsWellFormed(q, suffix);
      } else {
        var p := q.(dn := q.orig, nxt := q.nxt + 1);
        NextSrchIgnoresName(cfg, q.(nxt := q.nxt + 1), q.orig);
        NextSrchValid(cfg, p);
      }
    }
  }

  lemma {:induction false} NextSrchIgnoresName(cfg: Config, q: Query, dn: Name)
    requires ValidConfig(cfg) && ValidLabels(q.orig)
    ensures NextSrch(cfg, q.(dn := dn)).0 == NextSrch(cfg, q).0
    ensures NextSrch(cfg, q).0 ==> NextSrch(cfg, q.(dn := dn)) == NextSrch(cfg, q)
    decreases |cfg.suffixes| - q.nxt
  {
    hide Body, Encode;
    if q.nxt < |cfg.suffixes| && !Usable(q, cfg.suffixes[q.nxt]) {
      NextSrchIgnoresName(cfg, q.(nxt := q.nxt + 1), dn);
    }
  }

  lemma RenamedIsWellFormed(q: Query, suffix: Name)
    requires WellFormed(q.orig) && ValidLabels(suffix) && Usable(q, suffix)
    ensures WellFormed(q.orig + suffix)
  {
    BodyConcat(q.orig, suffix);
  }

  /** If the name was not yet asked for as it is, some suffix can still be used. */
  lemma {:induction false} NextSrchFinds(cfg: Config, q: Query)
    requires ValidConfig(cfg) && WellFormed(q.orig) && q.nxt < |cfg.suffixes| && !q.asisDone
    ensures NextSrch(cfg, q).0
    decreases |cfg.suffixes| - q.nxt
  {
    if !Usable(q, cfg.suffixes[q.nxt]) {
      NextSrchFinds(cfg, q.(nxt := q.nxt + 1));
    }
  }

  /** The as-is name is not asked for twice: once done, no search step gives it again. */
  lemma {:induction false} AsIsOnce(cfg: Config, q: Query)
    requires ValidConfig(cfg) && ValidLabels(q.orig) && q.asisDone && NextSrch(cfg, q).0
    ensures NextSrch(cfg, q).1.asisDone && NextSrch(cfg, q).1.dn != q.orig
    decreases |cfg.suffixes| - q.nxt
  {
    if Usable(q, cfg.suffixes[q.nxt]) {
      assert |q.orig + cfg.suffixes[q.nxt]| != |q.orig|;
    } else {
      AsIsOnce(cfg, q.(nxt := q.nxt + 1));
    }
  }

  lemma NewQueryValid(cfg: Config, key: nat, orig: Name, nosrch: bool, ndots: nat)
    requires ValidConfig(cfg) && WellFormed(orig)
    ensures var q := NewQuery(cfg, key, orig, nosrch, ndots);
      ValidQuery(cfg, q) && q.key == key && q.orig == orig && q.deadline == 0 && q.servi == 0 && q.tries == 0
  {
    var q := Query(key, orig, orig, 0, {}, {}, {}, 0, 0, false, false, 0);
    NextSrchFinds(cfg, q);
    NextSrchValid(cfg, q);
  }

  // -------------------------------------------------------------------------
  // Every transmission makes progress
  // -------------------------------------------------------------------------

  /** The lexicographic measure: suffixes, tries, servers, and servers that may get EDNS0. */
  predicate Less(cfg: Config, p: Query, q: Query) {
    || p.nxt > q.nxt
    || (p.nxt == q.nxt && p.tries > q.tries)
    || (p.nxt == q.nxt && p.tries == q.tries && p.servi > q.servi)
    || (p.nxt == q.nxt && p.tries == q.tries && p.servi == q.servi && |p.servnEDNS0| > |q.servnEDNS0|)
  }

  predicate SameMeasure(p: Query, q: Query) {
    p.nxt == q.nxt && p.tries == q.tries && p.servi == q.servi && p.servnEDNS0 == q.servnEDNS0
  }

  lemma SendThisProgress(cfg: Config, q: Query, servi: nat, now: int, ok: bool)
    requires ValidConfig(cfg) && ValidQuery(cfg, q) && servi < cfg.nserv
    ensures var o := SendThis(cfg, q, servi, now, ok);
      o.Sent? ==>
        && ValidQuery(cfg, o.q) && o.q.key == q.key && o.q.orig == q.orig
        && o.q.deadline > now && servi in o.q.servwait
        && o.q == q.(servi := o.q.servi, servwait := q.servwait + {servi}, deadline := o.q.deadline)
        && q.servi <= o.q.servi
  {
    hide WellFormed;
    var q1 := FindServ(cfg, q.(servwait := q.servwait + {servi}));
    assert cfg.timeout * Pow2(q1.tries) >= 1;
  }

  lemma SendProgress(cfg: Config, q: Query, now: int, ok: bool)
    requires ValidConfig(cfg) && ValidQuery(cfg, q)
    ensures var o := Send(cfg, q, now, ok);
      if o.Sent? then
        && ValidQuery(cfg, o.q) && o.q.key == q.key && o.q.orig == q.orig
        && o.q.deadline > now && Less(cfg, o.q, q) && o.q.nxt == q.nxt
      else o == Ends(TempFail)
  {
    hide WellFormed, SendThis;
    var q1 := FindServ(cfg, q);
    if q1.servi < cfg.nserv {
      SendThisProgress(cfg, q1.(servi := q1.servi + 1), q1.servi, now, ok);
      SendThisEnds(cfg, q1.(servi := q1.servi + 1), q1.servi, now, ok);
    } else {
      var q2 := q1.(servi := 0, tries := q1.tries + 1);
      var q3 := FindServ(cfg, q2);
      if q2.tries < cfg.ntries && q3.servi < cfg.nserv {
        SendThisProgress(cfg, q3.(servi := q3.servi + 1), q3.servi, now, ok);
        SendThisEnds(cfg, q3.(servi := q3.servi + 1), q3.servi, now, ok);
      }
    }
  }

  lemma SendThisEnds(cfg: Config, q: Query, servi: nat, now: int, ok: bool)
    ensures SendThis(cfg, q, servi, now, ok).Sent? <==> ok
    ensures !ok ==> SendThis(cfg, q, servi, now, ok) == Ends(TempFail)
  {
  }

  /** A reply either ends the query, or leaves it as it was but for one server, or makes progress. */
  ghost predicate Progress(cfg: Config, q: Query, now: int, o: Outcome) {
    !o.Ends? ==>
      && ValidQuery(cfg, o.q) && o.q.key == q.key && o.q.orig == q.orig
      && if o.Kept? then SameMeasure(o.q, q) && o.q.deadline == q.deadline
         else Less(cfg, o.q, q) && o.q.deadline > now
  }

  lemma UnexpectedProgress(cfg: Config, q: Query, servi: nat, now: int, ok: bool)
    requires ValidConfig(cfg) && ValidQuery(cfg, q) && servi < cfg.nserv
    ensures Progress(cfg, q, now, Unexpected(cfg, q, servi, now, ok))
    ensures Unexpected(cfg, q, servi, now, ok).Ends? ==> Unexpected(cfg, q, servi, now, ok).status == TempFail
  {
    hide WellFormed, Send;
    var q1 := q.(servskip := q.servskip + {servi});
    assert ValidQuery(cfg, q1);
    if q1.servwait == {} {
      SendProgress(cfg, q1, now, ok);
    }
  }

  lemma NextProgress(cfg: Config, q: Query, p: Query, now: int, ok: bool)
    requires ValidConfig(cfg) && ValidQuery(cfg, q) && ValidQuery(cfg, p)
    requires p.nxt > q.nxt && p.key == q.key && p.orig == q.orig
    ensures Progress(cfg, q, now, Send(cfg, p, now, ok))
  {
    hide WellFormed, Send, ValidQuery;
    SendProgress(cfg, p, now, ok);
  }

  lemma WithoutEdnsProgress(cfg: Config, q: Query, servi: nat, now: int, ok: bool)
    requires ValidConfig(cfg) && ValidQuery(cfg, q) && servi < cfg.nserv && servi !in q.servnEDNS0
    ensures Progress(cfg, q, now, SendThis(cfg, q.(servnEDNS0 := q.servnEDNS0 + {servi}), servi, now, ok))
  {
    hide WellFormed, SendThis;
    var q1 := q.(servnEDNS0 := q.servnEDNS0 + {servi});
    assert ValidQuery(cfg, q1);
    SendThisProgress(cfg, q1, servi, now, ok);
    SendThisEnds(cfg, q1, servi, now, ok);
  }

  lemma NextSrchKeeps(cfg: Config, q: Query)
    requires ValidConfig(cfg) && ValidQuery(cfg, q) && NextSrch(cfg, q).0
    ensures var p := NextSrch(cfg, q).1;
      p.nxt > q.nxt && p.key == q.key && p.orig == q.orig && ValidQuery(cfg, p)
  {
    NextSrchValid(cfg, q);
  }

  lemma ProgressFrom(cfg: Config, q: Query, q1: Query, now: int, o: Outcome)
    requires Progress(cfg, q1, now, o) && SameMeasure(q1, q)
    requires q1.key == q.key && q1.orig == q.orig && q1.deadline == q.deadline
    ensures Progress(cfg, q, now, o)
  {
    hide ValidQuery;
  }

  lemma SearchProgress(cfg: Config, q: Query, now: int, ok: bool)
    requires ValidConfig(cfg) && ValidQuery(cfg, q) && NextSrch(cfg, q).0
    ensures Progress(cfg, q, now, Send(cfg, NextSrch(cfg, q).1, now, ok))
    ensures Progress(cfg, q, now, Send(cfg, NextSrch(cfg, q).1.(seenNodata := true), now, ok))
  {
    hide Send, NextSrch;
    NextSrchKeeps(cfg, q);
    var p := NextSrch(cfg, q).1;
    NextProgress(cfg, q, p, now, ok);
    NextProgress(cfg, q, p.(seenNodata := true), now, ok);
  }

  lemma ReplyProgress(cfg: Config, q: Query, servi: nat, reply: Reply, now: int, ok: bool)
    requires ValidConfig(cfg) && ValidQuery(cfg, q)
    ensures Progress(cfg, q, now, HandleReply(cfg, q, servi, reply, now, ok))
  {
    hide Send, SendThis, Unexpected, NextSrch, FindServ, Progress, Body, ValidLabels;
    if servi !in q.servwait {
      KeptProgress(cfg, q, now);
    } else {
      assert servi < cfg.nserv;
      var q1 := q.(servwait := q.servwait - {servi});
      assert ValidQuery(cfg, q1);
      var o := HandleReply(cfg, q, servi, reply, now, ok);
      if o.Ends? {
        EndedProgress(cfg, q1, now, o.status);
      } else if (reply.NoError? && !reply.truncated) || reply.NameError? {
        SearchProgress(cfg, q1, now, ok);
      } else if reply.FormErrOrNotImpl? && cfg.edns && servi !in q1.servnEDNS0 {
        WithoutEdnsProgress(cfg, q1, servi, now, ok);
      } else {
        UnexpectedProgress(cfg, q1, servi, now, ok);
      }
      ProgressFrom(cfg, q, q1, now, o);
    }
  }

  lemma KeptProgress(cfg: Config, q: Query, now: int)
    requires ValidQuery(cfg, q)
    ensures Progress(cfg, q, now, Kept(q))
  {
  }

  lemma EndedProgress(cfg: Config, q: Query, now: int, status: Status)
    ensures Progress(cfg, q, now, Ends(status))
  {
  }

  // -------------------------------------------------------------------------
  // Which server is asked, and what the final status means
  // -------------------------------------------------------------------------

  predicate AllSkipped(cfg: Config, q: Query, from: nat) {
    forall s | from <= s < cfg.nserv :: s in q.servskip
  }

  /** `s` is the first server, from `from` on, that is not skipped. */
  predicate FirstServer(cfg: Config, q: Query, from: nat, s: nat) {
    from <= s < cfg.nserv && s !in q.servskip && forall t | from <= t < s :: t in q.servskip
  }

  lemma FindServMeans(cfg: Config, q: Query)
    ensures FindServ(cfg, q).servi >= cfg.nserv <==> AllSkipped(cfg, q, q.servi)
    ensures FindServ(cfg, q).servi < cfg.nserv ==> FirstServer(cfg, q, q.servi, FindServ(cfg, q).servi)
  {
  }

  /** This round has no server left, and there is no further round with one. */
  predicate Exhausted(cfg: Config, q: Query) {
    AllSkipped(cfg, q, q.servi) && (q.tries + 1 >= cfg.ntries || AllSkipped(cfg, q, 0))
  }

  /** A query is not sent exactly when `sendto` refuses it, or no server is left in any round. */
  lemma SendFailsIff(cfg: Config, q: Query, now: int, ok: bool)
    ensures Send(cfg, q, now, ok) == Ends(TempFail) <==> !ok || Exhausted(cfg, q)
    ensures Send(cfg, q, now, ok).Sent? <==> ok && !Exhausted(cfg, q)
  {
    hide FindServ, SendThis;
    var q1 := FindServ(cfg, q);
    FindServMeans(cfg, q);
    FindServMeans(cfg, q1.(servi := 0, tries := q1.tries + 1));
    SendThisEnds(cfg, q1.(servi := q1.servi + 1), q1.servi, now, ok);
    var q3 := FindServ(cfg, q1.(servi := 0, tries := q1.tries + 1));
    SendThisEnds(cfg, q3.(servi := q3.servi + 1), q3.servi, now, ok);
  }

  /** The wait for the last server of a round doubles with each round. */
  lemma WaitDoubles(n: nat)
    ensures Pow2(0) == 1 && Pow2(n + 1) == 2 * Pow2(n)
  {
  }

  /** The server asked is the first usable one of this round, or else of the next. */
  lemma SendChooses(cfg: Config, q: Query, now: int, s: nat)
    requires if AllSkipped(cfg, q, q.servi) then
        q.tries + 1 < cfg.ntries && FirstServer(cfg, q, 0, s)
      else FirstServer(cfg, q, q.servi, s)
    ensures var o := Send(cfg, q, now, true);
      && o.Sent?
      && o.q.servwait == q.servwait + {s}
      && o.q.servskip == q.servskip && o.q.servnEDNS0 == q.servnEDNS0
      && o.q.dn == q.dn && o.q.nxt == q.nxt && o.q.orig == q.orig && o.q.key == q.key
      && o.q.asisDone == q.asisDone && o.q.seenNodata == q.seenNodata
      && o.q.tries == q.tries + (if AllSkipped(cfg, q, q.servi) then 1 else 0)
      && s < o.q.servi && (forall t | s < t < o.q.servi :: t in q.servskip)
      && o.q.deadline == now + if o.q.servi < cfg.nserv then 1 else cfg.timeout * Pow2(o.q.tries)
  {
    hide FindServ;
    FindServMeans(cfg, q);
    var q1 := FindServ(cfg, q);
    FindServMeans(cfg, q1.(servi := 0, tries := q1.tries + 1));
  }

  /** No such name: nothing is left to ask for, and every name asked for does not exist. */
  lemma NoSuchNameMeans(cfg: Config, q: Query, servi: nat, reply: Reply, now: int, ok: bool)
    requires ValidConfig(cfg) && ValidLabels(q.orig)
    ensures var o := HandleReply(cfg, q, servi, reply, now, ok);
      && (o == Ends(NxDomain) <==>
            servi in q.servwait && reply.NameError? && NothingLeft(cfg, q) && !q.seenNodata)
      && (o == Ends(NoData) <==>
            servi in q.servwait && NothingLeft(cfg, q)
            && ((reply.NoError? && !reply.truncated && reply.answers == 0) || (reply.NameError? && q.seenNodata)))
  {
    hide FindServ, Send, SendThis, Unexpected, NextSrch, Usable, Body;
    var q1 := q.(servwait := q.servwait - {servi});
    assert NothingLeft(cfg, q1) == NothingLeft(cfg, q) by {
      NothingLeftIgnoresWait(cfg, q, q1.servwait);
    }
    NextSrchFails(cfg, q1);
    if NextSrch(cfg, q1).0 {
      SendEnds(cfg, NextSrch(cfg, q1).1, now, ok);
      SendEnds(cfg, NextSrch(cfg, q1).1.(seenNodata := true), now, ok);
    }
    UnexpectedEnds(cfg, q1, servi, now, ok);
    SendThisEnds(cfg, q1.(servnEDNS0 := q1.servnEDNS0 + {servi}), servi, now, ok);
  }

  predicate NothingLeft(cfg: Config, q: Query)
    requires ValidConfig(cfg) && ValidLabels(q.orig)
  {
    forall i | q.nxt <= i < |cfg.suffixes| :: !Usable(q, cfg.suffixes[i])
  }

  lemma NothingLeftIgnoresWait(cfg: Config, q: Query, wait: set<nat>)
    requires ValidConfig(cfg) && ValidLabels(q.orig)
    ensures NothingLeft(cfg, q.(servwait := wait)) == NothingLeft(cfg, q)
  {
    hide Body, Encode;
    var p := q.(servwait := wait);
    assert forall i | q.nxt <= i < |cfg.suffixes| :: Usable(p, cfg.suffixes[i]) == Usable(q, cfg.suffixes[i]);
  }

  lemma {:induction false} NextSrchFails(cfg: Config, q: Query)
    requires ValidConfig(cfg) && ValidLabels(q.orig)
    ensures NextSrch(cfg, q).0 <==> !NothingLeft(cfg, q)
    decreases |cfg.suffixes| - q.nxt
  {
    hide Body, Encode;
    if q.nxt < |cfg.suffixes| && !Usable(q, cfg.suffixes[q.nxt]) {
      var p := q.(nxt := q.nxt + 1);
      NextSrchFails(cfg, p);
      assert forall i | p.nxt <= i < |cfg.suffixes| :: Usable(p, cfg.suffixes[i]) == Usable(q, cfg.suffixes[i]);
    }
  }

  // -------------------------------------------------------------------------
  // The names that are asked for
  // -------------------------------------------------------------------------

  /** A suffix is used if the whole name is well formed, and the bare name only once. */
  lemma UsableMeans(q: Query, suffix: Name)
    requires ValidLabels(suffix) && ValidLabels(q.orig)
    ensures Usable(q, suffix) <==> WellFormed(q.orig + suffix) && (suffix == [] ==> !q.asisDone)
  {
    BodyConcat(q.orig, suffix);
  }

  /** The next name has the first suffix that can be used, and a fresh start with all servers. */
  lemma {:induction false} NextSrchMeans(cfg: Config, q: Query)
    requires ValidConfig(cfg) && ValidLabels(q.orig) && NextSrch(cfg, q).0
    ensures var p := NextSrch(cfg, q).1;
      var n := p.nxt - 1;
      && q.nxt <= n < |cfg.suffixes| && Usable(q, cfg.suffixes[n])
      && (forall i | q.nxt <= i < n :: !Usable(q, cfg.suffixes[i]))
      && p == Query(
           q.key, q.orig, q.orig + cfg.suffixes[n], 0, {}, {}, {}, 0, n + 1,
           q.asisDone || cfg.suffixes[n] == [], q.seenNodata, q.deadline)
    decreases |cfg.suffixes| - q.nxt
  {
    if !Usable(q, cfg.suffixes[q.nxt]) {
      hide Body, Encode;
      var q1 := q.(nxt := q.nxt + 1);
      NextSrchMeans(cfg, q1);
      assert forall i | q1.nxt <= i < |cfg.suffixes| :: Usable(q1, cfg.suffixes[i]) == Usable(q, cfg.suffixes[i]);
    }
  }

  /**
   * The first name of a submitted query: the bare one and no other without a search; the bare one and
   * then the whole list if it has more labels than `ndots`; and else the first of the list.
   */
  lemma NewQueryMeans(cfg: Config, key: nat, orig: Name, nosrch: bool, ndots: nat)
    requires ValidConfig(cfg) && WellFormed(orig)
    ensures var q := NewQuery(cfg, key, orig, nosrch, ndots);
      && q == Query(key, orig, q.dn, 0, {}, {}, {}, 0, q.nxt, q.asisDone, false, 0)
      && (nosrch ==> q.dn == orig && NothingLeft(cfg, q))
      && (!nosrch && |orig| > ndots ==> q.dn == orig && q.asisDone && q.nxt == 0)
      && (!nosrch && |orig| <= ndots ==>
            var n := q.nxt - 1;
            && 0 <= n < |cfg.suffixes|
            && q.dn == orig + cfg.suffixes[n] && q.asisDone == (cfg.suffixes[n] == [])
            && WellFormed(q.dn)
            && forall i | 0 <= i < n :: !WellFormed(orig + cfg.suffixes[i]))
  {
    var q := Query(key, orig, orig, 0, {}, {}, {}, 0, 0, false, false, 0);
    if !nosrch && |orig| <= ndots {
      NextSrchFinds(cfg, q);
      NextSrchMeans(cfg, q);
      hide Body, Encode, WellFormed, Usable, NextSrch;
      forall i | 0 <= i < |cfg.suffixes|
        ensures Usable(q, cfg.suffixes[i]) <==> WellFormed(orig + cfg.suffixes[i])
      {
        UsableMeans(q, cfg.suffixes[i]);
      }
    }
  }

  // -------------------------------------------------------------------------
  // What each reply does
  // -------------------------------------------------------------------------

  /** The name has no data of the type, or does not exist. */
  predicate Negative(reply: Reply) {
    (reply.NoError? && !reply.truncated && reply.answers == 0) || reply.NameError?
  }

  predicate Positive(reply: Reply) {
    reply.NoError? && !reply.truncated && reply.answers > 0
  }

  /** The server may not know EDNS0. */
  predicate EdnsRefused(cfg: Config, q: Query, servi: nat, reply: Reply) {
    reply.FormErrOrNotImpl? && cfg.edns && servi !in q.servnEDNS0
  }

  predicate ServerFailed(cfg: Config, q: Query, servi: nat, reply: Reply) {
    !Negative(reply) && !Positive(reply) && !EdnsRefused(cfg, q, servi, reply)
  }

  /** A query ends with what the parse routine says of an answer exactly when an expected server answers. */
  lemma AnswerMeans(cfg: Config, q: Query, servi: nat, reply: Reply, now: int, ok: bool, code: int)
    requires ValidConfig(cfg) && ValidLabels(q.orig)
    ensures HandleReply(cfg, q, servi, reply, now, ok) == Ends(Answer(code)) <==>
      servi in q.servwait && Positive(reply) && reply.parsed == code
  {
    hide FindServ, Send, SendThis, Unexpected, NextSrch;
    var q1 := q.(servwait := q.servwait - {servi});
    if NextSrch(cfg, q1).0 {
      SendEnds(cfg, NextSrch(cfg, q1).1, now, ok);
      SendEnds(cfg, NextSrch(cfg, q1).1.(seenNodata := true), now, ok);
    }
    UnexpectedEnds(cfg, q1, servi, now, ok);
    SendThisEnds(cfg, q1.(servnEDNS0 := q1.servnEDNS0 + {servi}), servi, now, ok);
  }

  /** A query that a server failed, with this server skipped from now on. */
  function Skipping(q: Query, servi: nat): Query {
    q.(servwait := q.servwait - {servi}, servskip := q.servskip + {servi})
  }

  /**
   * A reply ends a query for the time being exactly when a further transmission is called for, and
   * `sendto` refuses it or no server is left.
   */
  lemma TempFailMeans(cfg: Config, q: Query, servi: nat, reply: Reply, now: int, ok: bool)
    requires ValidConfig(cfg) && ValidLabels(q.orig)
    ensures HandleReply(cfg, q, servi, reply, now, ok) == Ends(TempFail) <==>
      && servi in q.servwait
      && ((Negative(reply) && !NothingLeft(cfg, q) && !ok)
          || (EdnsRefused(cfg, q, servi, reply) && !ok)
          || (ServerFailed(cfg, q, servi, reply) && q.servwait == {servi}
              && (!ok || Exhausted(cfg, Skipping(q, servi)))))
  {
    hide FindServ, Send, SendThis, NextSrch, Usable, Body, Exhausted, NothingLeft;
    var q1 := q.(servwait := q.servwait - {servi});
    NothingLeftIgnoresWait(cfg, q, q1.servwait);
    NextSrchFails(cfg, q1);
    if NextSrch(cfg, q1).0 {
      FreshStart(cfg, q1);
      SendFailsIff(cfg, NextSrch(cfg, q1).1, now, ok);
      SendFailsIff(cfg, NextSrch(cfg, q1).1.(seenNodata := true), now, ok);
    }
    assert servi in q.servwait ==> (q1.servwait == {} <==> q.servwait == {servi});
    SendFailsIff(cfg, Skipping(q, servi), now, ok);
    SendThisEnds(cfg, q1.(servnEDNS0 := q1.servnEDNS0 + {servi}), servi, now, ok);
  }

  /** With a new name, the first server can be asked. */
  lemma FreshStart(cfg: Config, q: Query)
    requires ValidConfig(cfg) && ValidLabels(q.orig) && NextSrch(cfg, q).0
    ensures var p := NextSrch(cfg, q).1;
      && !Exhausted(cfg, p) && !Exhausted(cfg, p.(seenNodata := true))
      && FirstServer(cfg, p, 0, 0) && FirstServer(cfg, p.(seenNodata := true), 0, 0)
  {
    hide Usable, NextSrch;
    NextSrchMeans(cfg, q);
    var p := NextSrch(cfg, q).1;
    assert 0 !in p.servskip && !AllSkipped(cfg, p, 0) && !AllSkipped(cfg, p.(seenNodata := true), 0);
  }

  /**
   * A query waits on exactly when the reply is not expected, and nothing changes then, or when its
   * server failed and another one may still reply, and the server is skipped then.
   */
  lemma KeptMeans(cfg: Config, q: Query, servi: nat, reply: Reply, now: int, ok: bool)
    requires ValidConfig(cfg) && ValidLabels(q.orig)
    ensures var o := HandleReply(cfg, q, servi, reply, now, ok);
      && (o.Kept? <==> servi !in q.servwait || (ServerFailed(cfg, q, servi, reply) && q.servwait != {servi}))
      && (o.Kept? ==> o.q == if servi in q.servwait then Skipping(q, servi) else q)
  {
    hide FindServ, Send, SendThis, NextSrch;
    var q1 := q.(servwait := q.servwait - {servi});
    if NextSrch(cfg, q1).0 {
      SendEnds(cfg, NextSrch(cfg, q1).1, now, ok);
      SendEnds(cfg, NextSrch(cfg, q1).1.(seenNodata := true), now, ok);
    }
    assert servi in q.servwait ==> (q1.servwait == {} <==> q.servwait == {servi});
    SendEnds(cfg, Skipping(q, servi), now, ok);
    SendThisEnds(cfg, q1.(servnEDNS0 := q1.servnEDNS0 + {servi}), servi, now, ok);
  }

  /** After a negative reply, the first server is asked for the next name, and a name without data is remembered. */
  lemma NextNameSent(cfg: Config, q: Query, servi: nat, reply: Reply, now: int)
    requires ValidConfig(cfg) && ValidLabels(q.orig)
    requires servi in q.servwait && Negative(reply) && !NothingLeft(cfg, q)
    ensures var o := HandleReply(cfg, q, servi, reply, now, true);
      && o.Sent?
      && var n := o.q.nxt - 1;
      && q.nxt <= n < |cfg.suffixes| && Usable(q, cfg.suffixes[n])
      && (forall i | q.nxt <= i < n :: !Usable(q, cfg.suffixes[i]))
      && o.q.dn == q.orig + cfg.suffixes[n]
      && o.q.servwait == {0} && o.q.servskip == {} && o.q.servnEDNS0 == {} && o.q.tries == 0
      && o.q.asisDone == (q.asisDone || cfg.suffixes[n] == [])
      && o.q.seenNodata == (q.seenNodata || reply.NoError?)
      && o.q.deadline == now + if cfg.nserv > 1 then 1 else cfg.timeout
  {
    hide FindServ, Send, SendThis, NextSrch, Usable, Body, Exhausted;
    var q1 := q.(servwait := q.servwait - {servi});
    NothingLeftIgnoresWait(cfg, q, q1.servwait);
    NextSrchFails(cfg, q1);
    NextSrchMeans(cfg, q1);
    UsableIgnoresWait(cfg, q, q1.servwait);
    FreshStart(cfg, q1);
    var p := NextSrch(cfg, q1).1;
    SendChooses(cfg, p, now, 0);
    SendChooses(cfg, p.(seenNodata := true), now, 0);
    WaitDoubles(0);
    assert 1 !in p.servskip;
  }

  lemma UsableIgnoresWait(cfg: Config, q: Query, wait: set<nat>)
    requires ValidConfig(cfg) && ValidLabels(q.orig)
    ensures forall i | 0 <= i < |cfg.suffixes| ::
      Usable(q.(servwait := wait), cfg.suffixes[i]) == Usable(q, cfg.suffixes[i])
  {
    hide Body, Encode;
  }

  /** A server that may not know EDNS0 is asked again, without it. */
  lemma AskedWithoutEdns(cfg: Config, q: Query, servi: nat, reply: Reply, now: int)
    requires ValidConfig(cfg) && ValidLabels(q.orig)
    requires servi in q.servwait && EdnsRefused(cfg, q, servi, reply)
    ensures var o := HandleReply(cfg, q, servi, reply, now, true);
      && o.Sent?
      && servi in o.q.servnEDNS0
      && o.q == q.(servnEDNS0 := q.servnEDNS0 + {servi}, servi := o.q.servi, deadline := o.q.deadline)
      && (forall s | q.servi <= s < o.q.servi :: s in q.servskip)
      && o.q.deadline == now + if o.q.servi < cfg.nserv then 1 else cfg.timeout * Pow2(q.tries)
  {
    hide FindServ;
    assert q.servwait - {servi} + {servi} == q.servwait;
  }

  /** When the last server waited for failed, another one is asked; the failed one never again for this name. */
  lemma OtherServerAsked(cfg: Config, q: Query, servi: nat, reply: Reply, now: int)
    requires ValidConfig(cfg) && ValidLabels(q.orig)
    requires servi in q.servwait && ServerFailed(cfg, q, servi, reply) && q.servwait == {servi}
    requires !Exhausted(cfg, Skipping(q, servi))
    ensures var o := HandleReply(cfg, q, servi, reply, now, true);
      && o.Sent? && o.q.dn == q.dn && o.q.servskip == q.servskip + {servi}
      && exists s :: o.q.servwait == {s} && s !in q.servskip && s != servi && s < cfg.nserv
  {
    hide FindServ, SendThis;
    var p := Skipping(q, servi);
    assert p.servwait == {};
    FindServMeans(cfg, p);
    var s := if AllSkipped(cfg, p, p.servi) then FindServ(cfg, p.(servi := 0)).servi else FindServ(cfg, p).servi;
    FindServMeans(cfg, p.(servi := 0));
    assert AllSkipped(cfg, p.(servi := 0), 0) == AllSkipped(cfg, p, 0);
    SendChooses(cfg, p, now, s);
  }

  lemma SendEnds(cfg: Config, q: Query, now: int, ok: bool)
    ensures Send(cfg, q, now, ok).Sent? || Send(cfg, q, now, ok) == Ends(TempFail)
  {
  }

  lemma UnexpectedEnds(cfg: Config, q: Query, servi: nat, now: int, ok: bool)
    ensures Unexpected(cfg, q, servi, now, ok).Ends? ==> Unexpected(cfg, q, servi, now, ok).status == TempFail
  {
    hide Send;
    SendEnds(cfg, q.(servskip := q.servskip + {servi}), now, ok);
  }
}
