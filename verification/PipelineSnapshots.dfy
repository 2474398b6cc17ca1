/**
 The loops of computePipelineSnapshots (otelcol/extensions/statuscfgextension/
 extension.go), proved to compute the closed form of module Attribution in whatever
 order Go happens to visit the maps.
 */
module PipelineSnapshots {
  import opened FiniteSums
  import opened RealArith
  import opened Attribution

  /** A Go map of floats: adding to a missing key starts from zero. */
  type Amounts = map<string, real>

  function Amount(m: Amounts, n: string): real {
    if n in m then m[n] else 0.0
  }

  function UsersSoFar(users: map<string, seq<string>>, x: string): seq<string> {
    if x in users then users[x] else []
  }

  /** The users of an exporter, once per listing, in some order. */
  ghost predicate UsersOf(p: Pipelines, x: string, us: seq<string>) {
    (forall n :: n in us ==> n in p) && forall n :: Occurs(us, n) == Listed(p, n, x)
  }

  ghost function AddUp(us: seq<string>, v: string -> real): real {
    if us == [] then 0.0 else AddUp(us[..|us| - 1], v) + v(us[|us| - 1])
  }

  ghost function Counted(us: seq<string>, v: string -> real): string -> real {
    n => Times(Occurs(us, n), v(n))
  }

  /** Adding up a list is summing over its elements with their multiplicities. */
  lemma {:induction false} AddUpIsSum(s: set<string>, us: seq<string>, v: string -> real)
    requires forall n :: n in us ==> n in s
    ensures AddUp(us, v) == Sum(s, Counted(us, v))
  {
    if us == [] {
      SumZero(s, Counted(us, v));
    } else {
      var front, last := us[..|us| - 1], us[|us| - 1];
      AddUpIsSum(s, front, v);
      SumTake(s, last, Counted(us, v));
      SumTake(s, last, Counted(front, v));
      SumSame(s - {last}, Counted(us, v), Counted(front, v));
    }
  }

  lemma {:induction false} AddUpOnes(us: seq<string>)
    ensures AddUp(us, ONE) == |us| as real
  {
    if us != [] { AddUpOnes(us[..|us| - 1]); }
  }

  lemma UsersTotal(p: Pipelines, x: string, us: seq<string>, v: string -> real)
    requires UsersOf(p, x, us)
    ensures AddUp(us, v) == Total(p, x, v)
  {
    AddUpIsSum(p.Keys, us, v);
    SumSame(p.Keys, Counted(us, v), Column(p, x, v));
  }

  // --- events_in

  method SumInputs(p: Pipelines, accepted: Counters) returns (ins: map<string, nat>)
    ensures ins == map n | n in p :: In(p, n, accepted)
  {
    ins := map[];
    var todo := p.Keys;
    while todo != {}
      invariant todo <= p.Keys && ins.Keys == p.Keys - todo
      invariant forall n :: n in ins ==> ins[n] == In(p, n, accepted)
      decreases |todo|
    {
      var name :| name in todo;
      var receivers := p[name].receivers;
      var eventsIn := 0;
      for i := 0 to |receivers|
        invariant eventsIn == CountAll(receivers[..i], accepted)
      {
        assert receivers[..i + 1][..i] == receivers[..i];
        eventsIn := eventsIn + Count(accepted, receivers[i]);
      }
      assert receivers[..|receivers|] == receivers;
      ins := ins[name := eventsIn];
      todo := todo - {name};
    }
  }

  // --- exporterUsers

  /** The users recorded so far are those of the pipelines already visited. */
  ghost predicate UsersAmong(users: map<string, seq<string>>, p: Pipelines, visited: set<string>) {
    && (forall x :: x in users <==> exists n :: n in visited && Listed(p, n, x) > 0)
    && (forall x, n :: Occurs(UsersSoFar(users, x), n) == if n in visited then Listed(p, n, x) else 0)
  }

  method CollectUsers(p: Pipelines) returns (users: map<string, seq<string>>)
    ensures users.Keys == Used(p)
    ensures forall x :: x in users ==> UsersOf(p, x, users[x])
  {
    hide UsersAmong, UsersOf, Extended, Used;
    users := map[];
    var todo := p.Keys;
    ghost var visited := {};
    NoUsersYet(p);
    while todo != {}
      invariant p.Keys == todo + visited && todo !! visited
      invariant UsersAmong(users, p, visited)
      decreases |todo|
    {
      var name :| name in todo;
      ghost var before := users;
      users := AddUser(users, name, p[name].exporters);
      UsersGrow(before, users, p, name, visited);
      todo, visited := todo - {name}, visited + {name};
    }
    AllUsersCollected(users, p);
  }

  lemma NoUsersYet(p: Pipelines)
    ensures UsersAmong(map[], p, {})
  {
  }

  lemma UsersGrow(before: map<string, seq<string>>, after: map<string, seq<string>>, p: Pipelines, name: string,
                  visited: set<string>)
    requires UsersAmong(before, p, visited) && name in p && name !in visited
    requires Extended(before, after, name, p[name].exporters)
    ensures UsersAmong(after, p, visited + {name})
  {
    hide UsersAmong, Extended, UsersSoFar, Occurs, Listed;
    forall x ensures x in after <==> exists n :: n in visited + {name} && Listed(p, n, x) > 0 {
      RecordedIffListed(before, after, p, name, visited, x);
    }
    forall x, n ensures Occurs(UsersSoFar(after, x), n) == if n in visited + {name} then Listed(p, n, x) else 0 {
      CountsGrow(before, after, p, name, visited, x, n);
    }
    UsersAre(after, p, visited + {name});
  }

  lemma UsersAre(users: map<string, seq<string>>, p: Pipelines, visited: set<string>)
    requires forall x :: x in users <==> exists n :: n in visited && Listed(p, n, x) > 0
    requires forall x, n :: Occurs(UsersSoFar(users, x), n) == if n in visited then Listed(p, n, x) else 0
    ensures UsersAmong(users, p, visited)
  {
  }

  lemma RecordedIffListed(before: map<string, seq<string>>, after: map<string, seq<string>>, p: Pipelines, name: string,
                          visited: set<string>, x: string)
    requires UsersAmong(before, p, visited) && name in p && name !in visited
    requires Extended(before, after, name, p[name].exporters)
    ensures x in after <==> exists n :: n in visited + {name} && Listed(p, n, x) > 0
  {
    hide UsersSoFar, Occurs;
    assert Listed(p, name, x) == Occurs(p[name].exporters, x);
    if x in before {
      var n :| n in visited && Listed(p, n, x) > 0;
      assert n in visited + {name};
    } else if Listed(p, name, x) > 0 {
      assert name in visited + {name};
    }
  }

  lemma CountsGrow(before: map<string, seq<string>>, after: map<string, seq<string>>, p: Pipelines, name: string,
                   visited: set<string>, x: string, n: string)
    requires UsersAmong(before, p, visited) && name in p && name !in visited
    requires Extended(before, after, name, p[name].exporters)
    ensures Occurs(UsersSoFar(after, x), n) == if n in visited + {name} then Listed(p, n, x) else 0
  {
    hide UsersSoFar, Occurs;
    assert Occurs(UsersSoFar(after, x), n) ==
           Occurs(UsersSoFar(before, x), n) + if n == name then Occurs(p[name].exporters, x) else 0;
    assert Occurs(UsersSoFar(before, x), n) == if n in visited then Listed(p, n, x) else 0;
  }

  lemma AllUsersCollected(users: map<string, seq<string>>, p: Pipelines)
    requires UsersAmong(users, p, p.Keys)
    ensures users.Keys == Used(p)
    ensures forall x :: x in users ==> UsersOf(p, x, users[x])
  {
    forall x ensures x in users <==> x in Used(p) {
      if x in users {
        var n :| n in p.Keys && Listed(p, n, x) > 0;
        ListedIffUsed(p, n, x);
      } else if x in Used(p) {
        var n :| n in p && x in p[n].exporters;
        ListedIffUsed(p, n, x);
      }
    }
    forall x | x in users ensures UsersOf(p, x, users[x]) {
      assert users[x] == UsersSoFar(users, x);
      forall n | n in users[x] ensures n in p { OccursIffIn(users[x], n); }
    }
  }

  /** `users` is `before` with the pipeline added once per listing in `xs`. */
  ghost predicate Extended(before: map<string, seq<string>>, users: map<string, seq<string>>, name: string,
                           xs: seq<string>) {
    && (forall x :: x in users <==> x in before || Occurs(xs, x) > 0)
    && (forall x, n :: Occurs(UsersSoFar(users, x), n) ==
                       Occurs(UsersSoFar(before, x), n) + if n == name then Occurs(xs, x) else 0)
  }

  lemma ExtendNone(before: map<string, seq<string>>, name: string)
    ensures Extended(before, before, name, [])
  {
    assert forall x :: Occurs([], x) == 0;
  }

  lemma ExtendOne(before: map<string, seq<string>>, users: map<string, seq<string>>, name: string, xs: seq<string>,
                  x: string)
    requires Extended(before, users, name, xs)
    ensures Extended(before, users[x := UsersSoFar(users, x) + [name]], name, xs + [x])
  {
    var grown := UsersSoFar(users, x) + [name];
    assert grown[..|grown| - 1] == UsersSoFar(users, x);
    assert (xs + [x])[..|xs|] == xs;
    var users' := users[x := grown];
    forall y, n ensures Occurs(UsersSoFar(users', y), n) ==
                        Occurs(UsersSoFar(before, y), n) + if n == name then Occurs(xs + [x], y) else 0 {
      assert Occurs(UsersSoFar(users, y), n) == Occurs(UsersSoFar(before, y), n) + if n == name then Occurs(xs, y)
             else 0;
    }
  }

  /** The inner loop: one entry for the pipeline under each exporter it lists. */
  method AddUser(before: map<string, seq<string>>, name: string, exporters: seq<string>)
    returns (users: map<string, seq<string>>)
    ensures Extended(before, users, name, exporters)
  {
    users := before;
    ExtendNone(before, name);
    assert exporters[..0] == [];
    for i := 0 to |exporters|
      invariant Extended(before, users, name, exporters[..i])
    {
      hide Extended;
      ExtendOne(before, users, name, exporters[..i], exporters[i]);
      assert exporters[..i + 1] == exporters[..i] + [exporters[i]];
      users := users[exporters[i] := UsersSoFar(users, exporters[i]) + [name]];
    }
    assert exporters[..|exporters|] == exporters;
  }

  // --- Splitting

  ghost function InputsOf(ins: map<string, nat>): string -> real {
    n => (if n in ins then ins[n] else 0) as real
  }

  method TotalInput(us: seq<string>, ins: map<string, nat>) returns (totalIn: nat)
    requires forall n :: n in us ==> n in ins
    ensures totalIn as real == AddUp(us, InputsOf(ins))
  {
    totalIn := 0;
    for i := 0 to |us|
      invariant totalIn as real == AddUp(us[..i], InputsOf(ins))
    {
      assert us[..i + 1][..i] == us[..i];
      totalIn := totalIn + ins[us[i]];
    }
    assert us[..|us|] == us;
  }

  /** Every listing in `us` has added its pipeline's value. */
  ghost predicate Added(before: Amounts, after: Amounts, us: seq<string>, v: string -> real) {
    forall n :: Amount(after, n) == Amount(before, n) + Times(Occurs(us, n), v(n))
  }

  /** What one listing brings each pipeline. */
  ghost function Parts(share: string -> real, total: real): string -> real {
    n => Mul(share(n), total)
  }

  lemma NothingAdded(m: Amounts, v: string -> real)
    ensures Added(m, m, [], v)
  {
  }

  lemma AddOne(before: Amounts, after: Amounts, us: seq<string>, i: nat, v: string -> real)
    requires i < |us| && Added(before, after, us[..i], v)
    ensures Added(before, after[us[i] := Amount(after, us[i]) + v(us[i])], us[..i + 1], v)
  {
    assert us[..i + 1][..i] == us[..i];
  }

  /** Every listing adds its share of both counters to its pipeline. */
  method AddShares(us: seq<string>, ins: map<string, nat>, totalIn: nat, sent: real, failed: real,
                   out: Amounts, dropped: Amounts, ghost share: string -> real)
    returns (out': Amounts, dropped': Amounts)
    requires forall n :: n in us ==> n in ins && share(n) == ShareOf(ins[n] as real, totalIn as real, |us| as real)
    ensures Added(out, out', us, Parts(share, sent)) && Added(dropped, dropped', us, Parts(share, failed))
  {
    hide Mul, Div, Added, Amount;
    out', dropped' := out, dropped;
    NothingAdded(out, Parts(share, sent));
    NothingAdded(dropped, Parts(share, failed));
    assert us[..0] == [];
    for i := 0 to |us|
      invariant Added(out, out', us[..i], Parts(share, sent)) && Added(dropped, dropped', us[..i], Parts(share, failed))
    {
      var name := us[i];
      var part := Div(1.0, |us| as real);
      if totalIn > 0 {
        part := Div(ins[name] as real, totalIn as real);
      }
      assert part == share(name);
      AddOne(out, out', us, i, Parts(share, sent));
      AddOne(dropped, dropped', us, i, Parts(share, failed));
      out' := out'[name := Amount(out', name) + Mul(part, sent)];
      dropped' := dropped'[name := Amount(dropped', name) + Mul(part, failed)];
    }
    assert us[..|us|] == us;
  }

  lemma SharesOfUsers(p: Pipelines, x: string, us: seq<string>, ins: map<string, nat>, accepted: Counters)
    requires UsersOf(p, x, us) && ins == map m | m in p :: In(p, m, accepted)
    ensures AddUp(us, InputsOf(ins)) == Total(p, x, Inputs(p, accepted))
    ensures |us| as real == Total(p, x, ONE)
  {
    UsersTotal(p, x, us, InputsOf(ins));
    UsersTotal(p, x, us, ONE);
    AddUpOnes(us);
    SumSame(p.Keys, Column(p, x, InputsOf(ins)), Column(p, x, Inputs(p, accepted)));
  }

  /** Every pipeline has what the exporters done so far bring it. */
  ghost predicate Credited(out: Amounts, p: Pipelines, t: Table, done: set<string>) {
    forall n :: n in p ==> Amount(out, n) == Sum(done, Row(p, n, t))
  }

  lemma CreditOne(out: Amounts, out': Amounts, p: Pipelines, t: Table, done: set<string>, x: string)
    requires Credited(out, p, t, done) && x !in done
    requires forall n :: n in p ==> Amount(out', n) == Amount(out, n) + Column(p, x, t(x))(n)
    ensures Credited(out', p, t, done + {x})
  {
    forall n | n in p ensures Amount(out', n) == Sum(done + {x}, Row(p, n, t)) {
      SumPut(done, x, Row(p, n, t));
    }
  }

  /** One exporter's turn. */
  method SplitExporter(p: Pipelines, x: string, us: seq<string>, ins: map<string, nat>, ghost accepted: Counters,
                       sent: Counters, failed: Counters, out: Amounts, dropped: Amounts, ghost done: set<string>)
    returns (out': Amounts, dropped': Amounts)
    requires UsersOf(p, x, us) && ins == map m | m in p :: In(p, m, accepted)
    requires x !in done
    requires Credited(out, p, CutTable(p, accepted, sent), done)
             && Credited(dropped, p, CutTable(p, accepted, failed), done)
    ensures Credited(out', p, CutTable(p, accepted, sent), done + {x})
    ensures Credited(dropped', p, CutTable(p, accepted, failed), done + {x})
  {
    hide Mul, Div, Credited, Added, Parts, CutTable;
    SharesOfUsers(p, x, us, ins, accepted);
    var totalIn := TotalInput(us, ins);
    out', dropped' := AddShares(us, ins, totalIn, Count(sent, x) as real, Count(failed, x) as real, out, dropped,
                                Shares(p, x, accepted));
    CreditAdded(out, out', p, us, accepted, sent, done, x);
    CreditAdded(dropped, dropped', p, us, accepted, failed, done, x);
  }

  /** What the listings of one exporter added is that exporter's column. */
  lemma CreditAdded(out: Amounts, out': Amounts, p: Pipelines, us: seq<string>, accepted: Counters, c: Counters,
                    done: set<string>, x: string)
    requires UsersOf(p, x, us) && x !in done && Credited(out, p, CutTable(p, accepted, c), done)
    requires Added(out, out', us, Parts(Shares(p, x, accepted), Count(c, x) as real))
    ensures Credited(out', p, CutTable(p, accepted, c), done + {x})
  {
    hide Mul, Shares, Times, Amount, Credited;
    var t := CutTable(p, accepted, c);
    forall n | n in p ensures Amount(out', n) == Amount(out, n) + Column(p, x, t(x))(n) {
      assert t(x)(n) == Parts(Shares(p, x, accepted), Count(c, x) as real)(n);
    }
    CreditOne(out, out', p, t, done, x);
  }

  /** The loop over the exporters, in any order. */
  method SplitAll(p: Pipelines, users: map<string, seq<string>>, ins: map<string, nat>, ghost accepted: Counters,
                  sent: Counters, failed: Counters)
    returns (out: Amounts, dropped: Amounts)
    requires users.Keys == Used(p) && forall x :: x in users ==> UsersOf(p, x, users[x])
    requires ins == map m | m in p :: In(p, m, accepted)
    ensures Credited(out, p, CutTable(p, accepted, sent), Used(p))
    ensures Credited(dropped, p, CutTable(p, accepted, failed), Used(p))
  {
    hide CutTable, UsersOf, In, Credited, Used;
    out, dropped := map[], map[];
    var todo := users.Keys;
    ghost var done := {};
    NothingCredited(p, CutTable(p, accepted, sent));
    NothingCredited(p, CutTable(p, accepted, failed));
    while todo != {}
      invariant Used(p) == todo + done && todo !! done
      invariant Credited(out, p, CutTable(p, accepted, sent), done)
      invariant Credited(dropped, p, CutTable(p, accepted, failed), done)
      decreases |todo|
    {
      var x :| x in todo;
      out, dropped := SplitExporter(p, x, users[x], ins, accepted, sent, failed, out, dropped, done);
      todo, done := todo - {x}, done + {x};
    }
  }

  lemma NothingCredited(p: Pipelines, t: Table)
    ensures Credited(map[], p, t, {})
  {
  }

  lemma CreditedIsSplit(out: Amounts, p: Pipelines, n: string, accepted: Counters, c: Counters)
    requires n in p && Credited(out, p, CutTable(p, accepted, c), Used(p))
    ensures Amount(out, n) == Split(p, n, accepted, c)
  {
    hide CutTable, Row, Used;
  }

  /** Whatever order the maps are visited in, each pipeline ends up with the closed form. */
  method ComputePipelineSnapshots(p: Pipelines, accepted: Counters, sent: Counters, failed: Counters)
    returns (snapshots: map<string, PipelineSnapshot>)
    ensures snapshots.Keys == p.Keys
    ensures forall n :: n in p ==>
              && snapshots[n].eventsIn == In(p, n, accepted)
              && Nearest(snapshots[n].eventsOut, Split(p, n, accepted, sent))
              && Nearest(snapshots[n].eventsDropped, Split(p, n, accepted, failed))
  {
    hide Round, Nearest, CutTable, Credited, Split, UsersOf, Used, In, Amount;
    var ins := SumInputs(p, accepted);
    var users := CollectUsers(p);
    var out, dropped := SplitAll(p, users, ins, accepted, sent, failed);
    forall n | n in p ensures Amount(out, n) == Split(p, n, accepted, sent)
      && Amount(dropped, n) == Split(p, n, accepted, failed) {
      CreditedIsSplit(out, p, n, accepted, sent);
      CreditedIsSplit(dropped, p, n, accepted, failed);
    }
    forall x ensures Nearest(Round(x), x) { RoundIsNearest(x); }
    snapshots := map n | n in p :: PipelineSnapshot(ins[n], Round(Amount(out, n)), Round(Amount(dropped, n)));
  }
}
