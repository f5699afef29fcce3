/** Common random numbers: what two sessions over one seed have in common. */
module Coupling {
  import opened Basics
  import opened Sessions

  // ---------- what each score is ----------

  function Lookup(scores: seq<Entry>, key: string): Option<real> {
    if scores == [] then None
    else if scores[0].key == key then Some(scores[0].score)
    else Lookup(scores[1..], key)
  }

  lemma {:induction false} LookupPut(scores: seq<Entry>, key: string, score: real, other: string)
    ensures Lookup(Put(scores, key, score), other) == if other == key then Some(score) else Lookup(scores, other)
  {
    if scores == [] {
    } else if scores[0].key == key {
      assert ([Entry(key, score)] + scores[1..])[1..] == scores[1..];
    } else {
      LookupPut(scores[1..], key, score, other);
      assert ([scores[0]] + Put(scores[1..], key, score))[1..] == Put(scores[1..], key, score);
    }
  }

  /** The last affordable offer of `key` among the first `n`. */
  function Last(offers: seq<Offer>, key: string, n: nat): (r: Option<nat>)
    requires n <= |offers|
    ensures r.Some? ==> r.value < n && offers[r.value].rep == key && offers[r.value].affordable
  {
    if n == 0 then None
    else if offers[n - 1].rep == key && offers[n - 1].affordable then Some(n - 1)
    else Last(offers, key, n - 1)
  }

  /** Each score comes from its key's last affordable offer and from the noise at that offer's own position. */
  lemma {:induction false} ScoreMeaning(task: TaskClass, offers: seq<Offer>, st: Stream, s: RngState, n: nat, key: string)
    requires n <= |offers|
    ensures Lookup(Scores(task, offers, st, s, n), key)
      == match Last(offers, key, n)
         case Some(j) => Some(Score(task, offers[j], Noise(st, s, j + 1)))
         case None =>
           if key == OUTSIDE then Some(OutsideEntry(task, Noise(st, s, 0) * task.choiceNoise).score) else None
  {
    if n == 0 {
      var start := Scores(task, offers, st, s, 0);
      assert start[0] == OutsideEntry(task, Noise(st, s, 0) * task.choiceNoise) && start[1..] == [];
    } else {
      ScoreMeaning(task, offers, st, s, n - 1, key);
      if offers[n - 1].affordable {
        LookupPut(Scores(task, offers, st, s, n - 1), offers[n - 1].rep, Score(task, offers[n - 1], Noise(st, s, n)), key);
      }
    }
  }

  /** Where a key is affordable in both lists, its last offer sits at the same position. */
  lemma {:induction false} LastTogether(offers: seq<Offer>, offers': seq<Offer>, key: string, n: nat)
    requires n <= |offers| == |offers'|
    requires forall i :: 0 <= i < |offers| ==> offers[i].rep == offers'[i].rep
    requires forall i :: 0 <= i < |offers| ==> offers[i].rep == key ==> offers[i].affordable && offers'[i].affordable
    ensures Last(offers, key, n) == Last(offers', key, n)
  {
    if n > 0 {
      LastTogether(offers, offers', key, n - 1);
    }
  }

  // ---------- two quote profiles ----------

  predicate SameButProfile(config: Config, c: Cell, c': Cell) {
    Known(config, c) && Known(config, c') && c' == c.(profile := c'.profile)
  }

  /** Offers of two profiles differ only in price and affordability, and sessions enter execution alike. */
  lemma {:induction false} ProfilesShareNoise(lib: Library, config: Config, c: Cell, c': Cell)
    requires SameButProfile(config, c, c')
    ensures EntryState(lib, config, c) == EntryState(lib, config, c')
    ensures
      var os, os' := CellOffers(config, c), CellOffers(config, c');
      |os| == |os'| && forall i :: 0 <= i < |os| ==>
        os'[i] == os[i].(price := os'[i].price, affordable := os'[i].affordable)
  {
  }

  function CellPrice(config: Config, c: Cell, rep: string): real
    requires Known(config, c) && Offered(config.designs[c.design], c.taskClass, rep)
  {
    Price(config.designs[c.design], c.taskClass, config.profiles[c.profile], rep)
  }

  /** Within one session, price and affordability depend only on the representation. */
  lemma {:induction false} OffersAreUniform(config: Config, c: Cell, i: nat)
    requires Known(config, c) && i < |CellOffers(config, c)|
    ensures
      var o := CellOffers(config, c)[i];
      && Offered(config.designs[c.design], c.taskClass, o.rep)
      && o.price == CellPrice(config, c, o.rep)
      && o.affordable == (CellPrice(config, c, o.rep) <= config.taskClasses[c.taskClass].budget)
  {
  }

  lemma {:induction false} CellScore(lib: Library, config: Config, c: Cell, rep: string) returns (j: nat)
    requires Known(config, c) && rep != OUTSIDE && Lookup(CellChoice(lib, config, c).scores, rep).Some?
    ensures Last(CellOffers(config, c), rep, |CellOffers(config, c)|) == Some(j)
    ensures Lookup(CellChoice(lib, config, c).scores, rep).value
      == Score(config.taskClasses[c.taskClass], CellOffers(config, c)[j], Noise(lib.stream(c.seed), FRESH, j + 1))
  {
    var os := CellOffers(config, c);
    ScoreMeaning(config.taskClasses[c.taskClass], os, lib.stream(c.seed), FRESH, |os|, rep);
    j := Last(os, rep, |os|).value;
  }

  function PriceTerm(task: TaskClass, price: real): real { task.priceWeight * price }

  lemma {:induction false} ScoreDifference(task: TaskClass, o: Offer, o': Offer, z: real, x: real, x': real)
    requires o.quality == o'.quality && x == Score(task, o, z) && x' == Score(task, o', z)
    ensures x' - x == PriceTerm(task, o.price) - PriceTerm(task, o'.price)
  {
  }

  /** Scored under both profiles, a representation carries the same noise: its scores differ by the price term alone. */
  lemma {:induction false} SameNoisePerOffer(lib: Library, config: Config, c: Cell, c': Cell, rep: string)
    requires SameButProfile(config, c, c') && rep != OUTSIDE
    requires Lookup(CellChoice(lib, config, c).scores, rep).Some? && Lookup(CellChoice(lib, config, c').scores, rep).Some?
    ensures Offered(config.designs[c.design], c.taskClass, rep)
    ensures
      var task := config.taskClasses[c.taskClass];
      Lookup(CellChoice(lib, config, c').scores, rep).value - Lookup(CellChoice(lib, config, c).scores, rep).value
      == PriceTerm(task, CellPrice(config, c, rep)) - PriceTerm(task, CellPrice(config, c', rep))
  {
    var o, o', z := ScoredTogether(lib, config, c, c', rep);
    ScoreDifference(config.taskClasses[c.taskClass], o, o', z,
      Lookup(CellChoice(lib, config, c).scores, rep).value, Lookup(CellChoice(lib, config, c').scores, rep).value);
  }

  /** The two offers and the one noise value behind a representation's two scores. */
  lemma {:induction false} ScoredTogether(lib: Library, config: Config, c: Cell, c': Cell, rep: string) returns (o: Offer, o': Offer, z: real)
    requires SameButProfile(config, c, c') && rep != OUTSIDE
    requires Lookup(CellChoice(lib, config, c).scores, rep).Some? && Lookup(CellChoice(lib, config, c').scores, rep).Some?
    ensures Offered(config.designs[c.design], c.taskClass, rep)
    ensures o.quality == o'.quality && o.price == CellPrice(config, c, rep) && o'.price == CellPrice(config, c', rep)
    ensures Lookup(CellChoice(lib, config, c).scores, rep).value == Score(config.taskClasses[c.taskClass], o, z)
    ensures Lookup(CellChoice(lib, config, c').scores, rep).value == Score(config.taskClasses[c.taskClass], o', z)
  {
    var j := CellScore(lib, config, c, rep);
    var j' := CellScore(lib, config, c', rep);
    OffersAreUniform(config, c, j);
    OffersAreUniform(config, c', j');
    SamePosition(lib, config, c, c', rep);
    ProfilesShareNoise(lib, config, c, c');
    o, o', z := CellOffers(config, c)[j], CellOffers(config, c')[j], Noise(lib.stream(c.seed), FRESH, j + 1);
  }

  lemma {:induction false} SamePosition(lib: Library, config: Config, c: Cell, c': Cell, rep: string)
    requires SameButProfile(config, c, c')
    requires Offered(config.designs[c.design], c.taskClass, rep)
    requires CellPrice(config, c, rep) <= config.taskClasses[c.taskClass].budget
    requires CellPrice(config, c', rep) <= config.taskClasses[c.taskClass].budget
    ensures Last(CellOffers(config, c), rep, |CellOffers(config, c)|)
      == Last(CellOffers(config, c'), rep, |CellOffers(config, c')|)
  {
    var os, os' := CellOffers(config, c), CellOffers(config, c');
    forall i | 0 <= i < |os|
      ensures os[i].rep == rep ==> os[i].affordable && os'[i].affordable
    {
      OffersAreUniform(config, c, i);
      OffersAreUniform(config, c', i);
    }
    LastTogether(os, os', rep, |os|);
  }

  /** Two profiles that select the same representation observe the same latency, cost, success and value. */
  lemma {:induction false} SameSelectionSameOutcome(lib: Library, config: Config, c: Cell, c': Cell)
    requires SameButProfile(config, c, c')
    requires CellChoice(lib, config, c).selected == CellChoice(lib, config, c').selected
    ensures SessionOutcome(lib, config, c) == SessionOutcome(lib, config, c')
  {
    ProfilesShareNoise(lib, config, c, c');
  }

  // ---------- raising one quote ----------

  lemma {:induction false} FirstMaximumIsBest(scores: seq<Entry>, i: nat)
    requires scores != [] && FirstMaximum(scores, i)
    ensures Best(scores) == i
  {
    var b := Best(scores);
    assert FirstMaximum(scores, b);
  }

  /** The same keys in the same order, with equal scores except lower ones at `r`. */
  predicate Lowered(d: seq<Entry>, d': seq<Entry>, r: string) {
    && |d| == |d'|
    && forall i :: 0 <= i < |d| ==>
      if d[i].key == r then d'[i].key == r && d'[i].score <= d[i].score else d'[i] == d[i]
  }

  lemma {:induction false} LoweredPut(d: seq<Entry>, d': seq<Entry>, r: string, key: string, x: real, x': real)
    requires Lowered(d, d', r) && (if key == r then x' <= x else x' == x)
    ensures Lowered(Put(d, key, x), Put(d', key, x'), r)
  {
    if d != [] && d[0].key != key {
      assert Lowered(d[1..], d'[1..], r);
      LoweredPut(d[1..], d'[1..], r, key, x, x');
    }
  }

  lemma {:induction false} LoweredBest(d: seq<Entry>, d': seq<Entry>, r: string)
    requires d != [] && Lowered(d, d', r) && d[Best(d)].key != r
    ensures Best(d') == Best(d)
  {
    FirstMaximumIsBest(d', Best(d));
  }

  function Remove(d: seq<Entry>, r: string): seq<Entry> {
    if d == [] then []
    else if d[0].key == r then Remove(d[1..], r)
    else [d[0]] + Remove(d[1..], r)
  }

  lemma {:induction false} RemoveJoin(a: seq<Entry>, b: seq<Entry>, r: string)
    ensures Remove(a + b, r) == Remove(a, r) + Remove(b, r)
  {
    if a == [] {
      assert a + b == b;
    } else {
      RemoveJoin(a[1..], b, r);
      assert a == [a[0]] + a[1..];
      assert a + b == [a[0]] + (a[1..] + b);
      RemoveCons(a[0], a[1..], r);
      RemoveCons(a[0], a[1..] + b, r);
    }
  }

  lemma {:induction false} RemovePart(d: seq<Entry>, r: string, i: nat)
    requires i < |Remove(d, r)|
    ensures Remove(d, r)[i] in d
  {
    if d[0].key == r {
      RemovePart(d[1..], r, i);
    } else if i > 0 {
      RemovePart(d[1..], r, i - 1);
    }
  }

  lemma {:induction false} RemoveCons(e: Entry, d: seq<Entry>, r: string)
    ensures Remove([e] + d, r) == if e.key == r then Remove(d, r) else [e] + Remove(d, r)
  {
    assert ([e] + d)[1..] == d;
  }

  lemma {:induction false} PutCons(e: Entry, d: seq<Entry>, key: string, x: real)
    ensures Put([e] + d, key, x) == if e.key == key then [Entry(key, x)] + d else [e] + Put(d, key, x)
  {
    assert ([e] + d)[1..] == d;
  }

  lemma {:induction false} RemovePut(d: seq<Entry>, r: string, key: string, x: real)
    ensures Remove(Put(d, key, x), r) == if key == r then Remove(d, r) else Put(Remove(d, r), key, x)
  {
    if d == [] {
      RemoveCons(Entry(key, x), [], r);
      assert [Entry(key, x)] + [] == [Entry(key, x)];
    } else {
      var e, tail := d[0], d[1..];
      assert d == [e] + tail;
      PutCons(e, tail, key, x);
      RemoveCons(e, tail, r);
      RemoveCons(Entry(key, x), tail, r);
      RemovePut(tail, r, key, x);
      RemoveCons(e, Put(tail, key, x), r);
      PutCons(e, Remove(tail, r), key, x);
    }
  }

  lemma {:induction false} RemovedAround(a: seq<Entry>, e: Entry, b: seq<Entry>, r: string)
    requires e.key != r
    ensures Remove(a + ([e] + b), r) == Remove(a, r) + ([e] + Remove(b, r))
  {
    RemoveJoin(a, [e] + b, r);
    RemoveCons(e, b, r);
  }

  lemma {:induction false} MaximumAmong(a: seq<Entry>, e: Entry, b: seq<Entry>)
    requires forall j :: 0 <= j < |a| ==> a[j].score < e.score
    requires forall j :: 0 <= j < |b| ==> b[j].score <= e.score
    ensures var d := a + ([e] + b); d[Best(d)] == e
  {
    var d := a + ([e] + b);
    assert FirstMaximum(d, |a|);
    FirstMaximumIsBest(d, |a|);
  }

  lemma {:induction false} RemoveBest(d: seq<Entry>, r: string)
    requires d != [] && d[Best(d)].key != r
    ensures Remove(d, r) != [] && Remove(d, r)[Best(Remove(d, r))] == d[Best(d)]
  {
    var i := Best(d);
    var a, e, b := d[..i], d[i], d[i + 1..];
    assert d == a + ([e] + b);
    RemovedAround(a, e, b, r);
    var a', b' := Remove(a, r), Remove(b, r);
    forall j | 0 <= j < |a'|
      ensures a'[j].score < e.score
    {
      RemovePart(a, r, j);
    }
    forall j | 0 <= j < |b'|
      ensures b'[j].score <= e.score
    {
      RemovePart(b, r, j);
    }
    MaximumAmong(a', e, b');
  }

  /** Offers that differ only in a higher price of `r`, which may cost `r` its affordability. */
  predicate RaisedAt(task: TaskClass, o: Offer, o': Offer, r: string, keeps: bool) {
    if o.rep == r then
      && o'.rep == r && o'.quality == o.quality && o.price <= o'.price
      && (o'.affordable ==> o.affordable) && o'.affordable == keeps
    else o' == o
  }

  predicate Raised(task: TaskClass, os: seq<Offer>, os': seq<Offer>, r: string, keeps: bool) {
    |os| == |os'| && forall i :: 0 <= i < |os| ==> RaisedAt(task, os[i], os'[i], r, keeps)
  }

  lemma {:induction false} ScoreFalls(task: TaskClass, o: Offer, o': Offer, z: real)
    requires task.priceWeight >= 0.0 && o.quality == o'.quality && o.price <= o'.price
    ensures Score(task, o', z) <= Score(task, o, z)
  {
    assert task.priceWeight * o.price <= task.priceWeight * o'.price;
  }

  lemma {:induction false} RaisedScoresFall(
    task: TaskClass, os: seq<Offer>, os': seq<Offer>, r: string, st: Stream, s: RngState, n: nat)
    requires task.priceWeight >= 0.0 && Raised(task, os, os', r, true) && n <= |os|
    ensures Lowered(Scores(task, os, st, s, n), Scores(task, os', st, s, n), r)
  {
    if n > 0 {
      RaisedScoresFall(task, os, os', r, st, s, n - 1);
      var o, o', z := os[n - 1], os'[n - 1], Noise(st, s, n);
      assert RaisedAt(task, o, o', r, true);
      if o.affordable {
        if o.rep == r {
          ScoreFalls(task, o, o', z);
        }
        LoweredPut(Scores(task, os, st, s, n - 1), Scores(task, os', st, s, n - 1), r, o.rep,
          Score(task, o, z), Score(task, o', z));
      }
    }
  }

  lemma {:induction false} RaisedScoresVanish(
    task: TaskClass, os: seq<Offer>, os': seq<Offer>, r: string, st: Stream, s: RngState, n: nat)
    requires Raised(task, os, os', r, false) && n <= |os| && r != OUTSIDE
    ensures Scores(task, os', st, s, n) == Remove(Scores(task, os, st, s, n), r)
  {
    if n == 0 {
      assert Scores(task, os, st, s, 0)[1..] == [];
    } else {
      RaisedScoresVanish(task, os, os', r, st, s, n - 1);
      var o, o' := os[n - 1], os'[n - 1];
      assert RaisedAt(task, o, o', r, false);
      if o.affordable {
        RemovePut(Scores(task, os, st, s, n - 1), r, o.rep, Score(task, o, Noise(st, s, n)));
      }
    }
  }

  lemma {:induction false} RaisedChoice(task: TaskClass, os: seq<Offer>, os': seq<Offer>, r: string, keeps: bool, st: Stream, s: RngState)
    requires task.priceWeight >= 0.0 && Raised(task, os, os', r, keeps) && r != OUTSIDE
    requires Choice(task, os, st, s).selected != Some(r)
    ensures Choice(task, os', st, s).selected == Choice(task, os, st, s).selected
  {
    var d := Scores(task, os, st, s, |os|);
    if keeps {
      RaisedScoresFall(task, os, os', r, st, s, |os|);
      LoweredBest(d, Scores(task, os', st, s, |os|), r);
    } else {
      RaisedScoresVanish(task, os, os', r, st, s, |os|);
      RemoveBest(d, r);
    }
  }

  /** The two profiles quote alike, except that the second quotes `r` higher or equal. */
  ghost predicate QuotesRaised(config: Config, c: Cell, c': Cell, r: string)
    requires SameButProfile(config, c, c')
  {
    forall rep :: Offered(config.designs[c.design], c.taskClass, rep) ==>
      if rep == r then CellPrice(config, c, rep) <= CellPrice(config, c', rep)
      else CellPrice(config, c, rep) == CellPrice(config, c', rep)
  }

  lemma {:induction false} RaisedOffers(lib: Library, config: Config, c: Cell, c': Cell, r: string) returns (keeps: bool)
    requires SameButProfile(config, c, c') && QuotesRaised(config, c, c', r)
    ensures Raised(config.taskClasses[c.taskClass], CellOffers(config, c), CellOffers(config, c'), r, keeps)
  {
    var task, os, os' := config.taskClasses[c.taskClass], CellOffers(config, c), CellOffers(config, c');
    keeps := Offered(config.designs[c.design], c.taskClass, r) && CellPrice(config, c', r) <= task.budget;
    ProfilesShareNoise(lib, config, c, c');
    forall i | 0 <= i < |os|
      ensures RaisedAt(task, os[i], os'[i], r, keeps)
    {
      OffersAreUniform(config, c, i);
      OffersAreUniform(config, c', i);
    }
  }

  // ---------- the outside option's own key ----------

  /** Some entry after the first scores more than `y`. */
  predicate Beaten(d: seq<Entry>, y: real) {
    exists i :: 1 <= i < |d| && d[i].score > y
  }

  /** The outside option's key leads the scores and occurs once. */
  predicate OutsideLeads(d: seq<Entry>) {
    d != [] && d[0].key == OUTSIDE && forall i :: 1 <= i < |d| ==> d[i].key != OUTSIDE
  }

  lemma {:induction false} PutKeepsLead(d: seq<Entry>, key: string, x: real)
    requires OutsideLeads(d)
    ensures OutsideLeads(Put(d, key, x))
    ensures Put(d, key, x)[1..] == if key == OUTSIDE then d[1..] else Put(d[1..], key, x)
    ensures Put(d, key, x)[0] == if key == OUTSIDE then Entry(key, x) else d[0]
  {
    var tail := d[1..];
    assert d == [d[0]] + tail;
    PutCons(d[0], tail, key, x);
    if key != OUTSIDE {
      forall i | 0 <= i < |Put(tail, key, x)|
        ensures Put(tail, key, x)[i].key != OUTSIDE
      {
        PutKeys(tail, key, x, i);
      }
    }
  }

  lemma {:induction false} ScoresLead(task: TaskClass, os: seq<Offer>, st: Stream, s: RngState, n: nat)
    requires n <= |os|
    ensures OutsideLeads(Scores(task, os, st, s, n))
  {
    if n > 0 {
      ScoresLead(task, os, st, s, n - 1);
      if os[n - 1].affordable {
        PutKeepsLead(Scores(task, os, st, s, n - 1), os[n - 1].rep, Score(task, os[n - 1], Noise(st, s, n)));
      }
    }
  }

  /** Offers that agree wherever they are not named like the outside option. */
  predicate AgreeElsewhere(os: seq<Offer>, os': seq<Offer>) {
    && |os| == |os'|
    && forall i :: 0 <= i < |os| ==> os[i].rep == os'[i].rep && (os[i].rep != OUTSIDE ==> os[i] == os'[i])
  }

  lemma {:induction false} OthersUnchanged(task: TaskClass, os: seq<Offer>, os': seq<Offer>, st: Stream, s: RngState, n: nat)
    requires AgreeElsewhere(os, os') && n <= |os|
    ensures Scores(task, os, st, s, n)[1..] == Scores(task, os', st, s, n)[1..]
  {
    if n > 0 {
      OthersUnchanged(task, os, os', st, s, n - 1);
      ScoresLead(task, os, st, s, n - 1);
      ScoresLead(task, os', st, s, n - 1);
      PutKeepsLead(Scores(task, os, st, s, n - 1), os[n - 1].rep, Score(task, os[n - 1], Noise(st, s, n)));
      PutKeepsLead(Scores(task, os', st, s, n - 1), os'[n - 1].rep, Score(task, os'[n - 1], Noise(st, s, n)));
    }
  }

  /** The outside option wins exactly when its key is not beaten. */
  lemma {:induction false} LeadWins(d: seq<Entry>)
    requires OutsideLeads(d)
    ensures SelectedKey(d[Best(d)].key).None? <==> !Beaten(d, d[0].score)
    ensures SelectedKey(d[Best(d)].key).None? <==> Best(d) == 0
  {
    if !Beaten(d, d[0].score) {
      FirstMaximumIsBest(d, 0);
    }
  }

  /** With another leading score, the same key wins exactly when the lead is beaten both times or neither. */
  lemma {:induction false} LeadReplaced(d: seq<Entry>, d': seq<Entry>)
    requires OutsideLeads(d) && OutsideLeads(d') && d[1..] == d'[1..]
    ensures SelectedKey(d'[Best(d')].key) == SelectedKey(d[Best(d)].key)
      <==> (Beaten(d, d[0].score) <==> Beaten(d, d'[0].score))
  {
    LeadWins(d);
    LeadWins(d');
    BeatenTogether(d, d', d'[0].score);
    if Beaten(d, d[0].score) && Beaten(d, d'[0].score) {
      SameWinner(d, d');
    }
  }

  lemma {:induction false} BeatenTogether(d: seq<Entry>, d': seq<Entry>, y: real)
    requires d != [] && d' != [] && d[1..] == d'[1..]
    ensures Beaten(d, y) <==> Beaten(d', y)
  {
    assert |d| == |d[1..]| + 1 == |d'|;
    assert forall i :: 1 <= i < |d| ==> d[i] == d[1..][i - 1] == d'[i];
  }

  lemma {:induction false} SameWinner(d: seq<Entry>, d': seq<Entry>)
    requires OutsideLeads(d) && OutsideLeads(d') && d[1..] == d'[1..]
    requires Beaten(d, d[0].score) && Beaten(d, d'[0].score)
    ensures Best(d') == Best(d) && d'[Best(d)] == d[Best(d)]
  {
    var b := Best(d);
    LeadWins(d);
    assert |d| == |d[1..]| + 1 == |d'|;
    assert forall i :: 1 <= i < |d| ==> d[i] == d[1..][i - 1] == d'[i];
    var k :| 1 <= k < |d| && d[k].score > d'[0].score;
    FirstMaximumIsBest(d', b);
  }

  /** The position of the affordable offer that holds the outside option's key, if there is one. */
  function OutsideOffer(config: Config, c: Cell): Option<nat>
    requires Known(config, c)
  {
    Last(CellOffers(config, c), OUTSIDE, |CellOffers(config, c)|)
  }

  /** The outside option's own score. */
  function BaseLead(task: TaskClass, st: Stream): real {
    OutsideEntry(task, Noise(st, FRESH, 0) * task.choiceNoise).score
  }

  /** What the leading score becomes when only the quote of that representation is raised. */
  function RaisedLead(lib: Library, config: Config, c: Cell, c': Cell): real
    requires SameButProfile(config, c, c')
  {
    var task := config.taskClasses[c.taskClass];
    var lead := CellChoice(lib, config, c).scores[0].score;
    if OutsideOffer(config, c).None? then lead
    else if OutsideOffer(config, c').None? then BaseLead(task, lib.stream(c.seed))
    else
      var j := OutsideOffer(config, c).value;
      lead + PriceTerm(task, CellOffers(config, c)[j].price) - PriceTerm(task, CellOffers(config, c')[j].price)
  }

  lemma {:induction false} LeadMeaning(lib: Library, config: Config, c: Cell)
    requires Known(config, c)
    ensures OutsideLeads(CellChoice(lib, config, c).scores)
    ensures
      var task, st, lead := config.taskClasses[c.taskClass], lib.stream(c.seed), CellChoice(lib, config, c).scores[0].score;
      match OutsideOffer(config, c)
      case Some(j) => lead == Score(task, CellOffers(config, c)[j], Noise(st, FRESH, j + 1))
      case None => lead == BaseLead(task, st)
  {
    var task, os, st := config.taskClasses[c.taskClass], CellOffers(config, c), lib.stream(c.seed);
    ScoresLead(task, os, st, FRESH, |os|);
    ScoreMeaning(task, os, st, FRESH, |os|, OUTSIDE);
  }

  /** The positions of that offer before and after a raise. */
  lemma {:induction false} OutsideOffersRaised(lib: Library, config: Config, c: Cell, c': Cell)
    requires SameButProfile(config, c, c') && QuotesRaised(config, c, c', OUTSIDE)
    ensures AgreeElsewhere(CellOffers(config, c), CellOffers(config, c'))
    ensures OutsideOffer(config, c).None? ==> OutsideOffer(config, c').None?
    ensures OutsideOffer(config, c').Some? ==> OutsideOffer(config, c') == OutsideOffer(config, c)
  {
    var os, os' := CellOffers(config, c), CellOffers(config, c');
    var keeps := RaisedOffers(lib, config, c, c', OUTSIDE);
    assert forall i :: 0 <= i < |os| ==> RaisedAt(config.taskClasses[c.taskClass], os[i], os'[i], OUTSIDE, keeps);
    if keeps {
      LastTogether(os, os', OUTSIDE, |os|);
    }
  }

  lemma {:induction false} LeadRaised(lib: Library, config: Config, c: Cell, c': Cell)
    requires SameButProfile(config, c, c') && QuotesRaised(config, c, c', OUTSIDE)
    ensures CellChoice(lib, config, c').scores[0].score == RaisedLead(lib, config, c, c')
  {
    OutsideOffersRaised(lib, config, c, c');
    if OutsideOffer(config, c').Some? {
      LeadShifted(lib, config, c, c', OutsideOffer(config, c').value);
    } else {
      LeadRestored(lib, config, c, c');
    }
  }

  lemma {:induction false} LeadRestored(lib: Library, config: Config, c: Cell, c': Cell)
    requires SameButProfile(config, c, c') && OutsideOffer(config, c').None?
    ensures CellChoice(lib, config, c').scores[0].score == RaisedLead(lib, config, c, c')
  {
    assert c'.seed == c.seed && c'.taskClass == c.taskClass;
    LeadMeaning(lib, config, c');
    if OutsideOffer(config, c).None? {
      LeadMeaning(lib, config, c);
    }
  }

  lemma {:induction false} LeadShifted(lib: Library, config: Config, c: Cell, c': Cell, j: nat)
    requires SameButProfile(config, c, c') && OutsideOffer(config, c) == OutsideOffer(config, c') == Some(j)
    ensures CellChoice(lib, config, c').scores[0].score == RaisedLead(lib, config, c, c')
  {
    LeadMeaning(lib, config, c);
    LeadMeaning(lib, config, c');
    ProfilesShareNoise(lib, config, c, c');
    var o, o' := CellOffers(config, c)[j], CellOffers(config, c')[j];
    ScoreDifference(config.taskClasses[c.taskClass], o, o', Noise(lib.stream(c.seed), FRESH, j + 1),
      CellChoice(lib, config, c).scores[0].score, CellChoice(lib, config, c').scores[0].score);
  }

  /**
   The raise leaves the selection alone: always for a representation with a
   name of its own, and for one named like the outside option exactly when the
   leading score is beaten both before and after, or neither.
   */
  ghost predicate Unmoved(lib: Library, config: Config, c: Cell, c': Cell, r: string)
    requires SameButProfile(config, c, c')
  {
    var d := CellChoice(lib, config, c).scores;
    r != OUTSIDE || (Beaten(d, d[0].score) <==> Beaten(d, RaisedLead(lib, config, c, c')))
  }

  lemma {:induction false} OutsideRaised(lib: Library, config: Config, c: Cell, c': Cell)
    requires SameButProfile(config, c, c') && QuotesRaised(config, c, c', OUTSIDE)
    ensures CellChoice(lib, config, c').selected == CellChoice(lib, config, c).selected
      <==> Unmoved(lib, config, c, c', OUTSIDE)
  {
    var os, os' := CellOffers(config, c), CellOffers(config, c');
    LeadMeaning(lib, config, c);
    LeadMeaning(lib, config, c');
    LeadRaised(lib, config, c, c');
    OutsideOffersRaised(lib, config, c, c');
    OthersUnchanged(config.taskClasses[c.taskClass], os, os', lib.stream(c.seed), FRESH, |os|);
    LeadReplaced(CellChoice(lib, config, c).scores, CellChoice(lib, config, c').scores);
  }

  /** Without an affordable offer of that name the raise never matters. */
  lemma {:induction false} UnofferedIsUnmoved(lib: Library, config: Config, c: Cell, c': Cell, r: string)
    requires SameButProfile(config, c, c') && (r == OUTSIDE ==> OutsideOffer(config, c).None?)
    ensures Unmoved(lib, config, c, c', r)
  {
  }

  /**
   With a non-negative price weight, raising one representation's quote never
   makes it newly selected. When it was not selected before, the selection stays
   exactly under `Unmoved`, and an unchanged selection has an unchanged outcome.
   */
  lemma {:induction false} RaisedQuoteNeverAttracts(lib: Library, config: Config, c: Cell, c': Cell, r: string)
    requires SameButProfile(config, c, c') && QuotesRaised(config, c, c', r)
    requires config.taskClasses[c.taskClass].priceWeight >= 0.0
    ensures CellChoice(lib, config, c').selected == Some(r) ==> CellChoice(lib, config, c).selected == Some(r)
    ensures CellChoice(lib, config, c).selected != Some(r) ==>
      (CellChoice(lib, config, c').selected == CellChoice(lib, config, c).selected <==> Unmoved(lib, config, c, c', r))
    ensures CellChoice(lib, config, c').selected == CellChoice(lib, config, c).selected ==>
      SessionOutcome(lib, config, c') == SessionOutcome(lib, config, c)
  {
    if r == OUTSIDE {
      OutsideRaised(lib, config, c, c');
    } else if CellChoice(lib, config, c).selected != Some(r) {
      var keeps := RaisedOffers(lib, config, c, c', r);
      RaisedChoice(config.taskClasses[c.taskClass], CellOffers(config, c), CellOffers(config, c'), r, keeps,
        lib.stream(c.seed), FRESH);
    }
    if CellChoice(lib, config, c').selected == CellChoice(lib, config, c).selected {
      SameSelectionSameOutcome(lib, config, c, c');
    }
  }

  /** Two candidates, unit weights, no choice noise, and the given outside utility. */
  function PlainTask(outside: real, rep: string): TaskClass {
    TaskClass([OUTSIDE, rep], 1.0, 0.0, 1.0, 1.0, outside, 0.0, 0.0, 1.0, 0.0, 0.0)
  }

  lemma {:induction false} TwoScores(task: TaskClass, a: Offer, b: Offer, st: Stream, s: RngState)
    requires task.choiceNoise == 0.0 && b.affordable && a.rep == OUTSIDE != b.rep
    ensures Scores(task, [a, b], st, s, 2)
      == [Entry(OUTSIDE, if a.affordable then Score(task, a, 0.0) else task.outsideUtility), Entry(b.rep, Score(task, b, 0.0))]
  {
    var os := [a, b];
    var outside := OutsideEntry(task, Noise(st, s, 0) * task.choiceNoise);
    assert outside == Entry(OUTSIDE, task.outsideUtility);
    assert Scores(task, os, st, s, 0)[0] == outside;
    assert Scores(task, os, st, s, 0) == [outside];
    assert forall o, z :: Score(task, o, z) == Score(task, o, 0.0);
    var first := Entry(OUTSIDE, if a.affordable then Score(task, a, 0.0) else task.outsideUtility);
    assert [outside][1..] == [] && Put([outside], OUTSIDE, Score(task, a, 0.0)) == [Entry(OUTSIDE, Score(task, a, 0.0))];
    assert Scores(task, os, st, s, 1) == [first];
    assert [first][1..] == [];
    assert Put([first], b.rep, Score(task, b, 0.0)) == [first] + [Entry(b.rep, Score(task, b, 0.0))];
    assert Scores(task, os, st, s, 2) == Put(Scores(task, os, st, s, 1), b.rep, Score(task, b, Noise(st, s, 2)));
  }

  function FreePath(task: string): Path { Path(true, "", 0.0, 0.0, 0.0, map[task := 0.0]) }

  /** A system whose second profile prices a representation named like the outside option out of the budget. */
  function Collision(rep: string, task: string, design: string, free: string, dear: string): RawConfig {
    Config(
      map[OUTSIDE := Representation(0, map[]), rep := Representation(0, map[task := 1.0])],
      map[task := PlainTask(5.0, rep)],
      map[design := map[OUTSIDE := FreePath(task), rep := FreePath(task)]],
      map[free := map[], dear := map[task := map[OUTSIDE := 9.0]]],
      0.0)
  }

  lemma {:induction false} CollisionLoads(config: RawConfig, rep: string, task: string, design: string, free: string, dear: string)
    requires config == Collision(rep, task, design, free, dear)
    ensures LoadedConfig(config)
  {
    var candidates := config.taskClasses[task].candidates;
    assert candidates[0] == OUTSIDE && candidates[1] == rep;
  }

  lemma {:induction false} BothAreCandidates(design: Design, task: string, a: string, b: string)
    requires Offered(design, task, a) && Offered(design, task, b)
    ensures Candidates(design, task, [a, b], true) == [a, b]
  {
    assert [a, b][..1] == [a] && [a][..0] == [];
    assert Candidates(design, task, [a], true) == [a];
  }

  /** The offers of that system under either profile. */
  lemma {:induction false} CollisionOffers(
    config: Config, c: Cell, rep: string, task: string, design: string, free: string, dear: string)
    requires rep != OUTSIDE && free != dear && config == Collision(rep, task, design, free, dear)
    requires c.design == design && c.taskClass == task && (c.profile == free || c.profile == dear) && c.multiplier > 0.0
    ensures Known(config, c)
    ensures
      var price := if c.profile == free then 0.0 else 9.0;
      CellOffers(config, c) == [Offer(OUTSIDE, price, c.profile == free, "", 0.0, 0.0), Offer(rep, 0.0, true, "", 0.0, 1.0)]
  {
    var d := config.designs[design];
    BothAreCandidates(d, task, OUTSIDE, rep);
    var os := CellOffers(config, c);
    assert os[0] == OfferOf(config, d, task, config.profiles[c.profile], OUTSIDE);
    assert os[1] == OfferOf(config, d, task, config.profiles[c.profile], rep);
  }

  /** Under the free profile the outside key scores zero against one; priced out, five against one. */
  lemma {:induction false} CollisionChoice(
    lib: Library, config: Config, c: Cell, rep: string, task: string, design: string, free: string, dear: string)
    requires rep != OUTSIDE && free != dear && config == Collision(rep, task, design, free, dear)
    requires c.design == design && c.taskClass == task && (c.profile == free || c.profile == dear) && c.multiplier > 0.0
    ensures Known(config, c)
    ensures CellChoice(lib, config, c).selected == if c.profile == free then Some(rep) else None
  {
    CollisionOffers(config, c, rep, task, design, free, dear);
    var os, st := CellOffers(config, c), lib.stream(c.seed);
    assert os == [os[0], os[1]];
    var t := config.taskClasses[task];
    TwoScores(t, os[0], os[1], st, FRESH);
    assert Score(t, os[1], 0.0) == 1.0;
    if c.profile == free {
      assert Score(t, os[0], 0.0) == 0.0;
    }
    FirstMaximumIsBest(Scores(t, os, st, FRESH, 2), if c.profile == free then 1 else 0);
  }

  /**
   Why the outside option's name is special: a representation of that name
   overwrites its score, and pricing that representation out brings it back.
   In these sessions the raise takes the selection away from a third offer,
   for every library and seed.
   */
  lemma {:induction false} OutsideNameCollides(
    lib: Library, rep: string, task: string, design: string, free: string, dear: string, seed: int)
    returns (config: Config, c: Cell, c': Cell)
    requires rep != OUTSIDE && free != dear
    ensures SameButProfile(config, c, c') && QuotesRaised(config, c, c', OUTSIDE) && c.seed == seed
    ensures config.taskClasses[c.taskClass].priceWeight >= 0.0
    ensures CellChoice(lib, config, c).selected == Some(rep) && CellChoice(lib, config, c').selected == None
    ensures !Unmoved(lib, config, c, c', OUTSIDE)
  {
    var raw := Collision(rep, task, design, free, dear);
    CollisionLoads(raw, rep, task, design, free, dear);
    config := raw;
    c, c' := Cell(design, task, free, 1.0, seed), Cell(design, task, dear, 1.0, seed);
    CollisionChoice(lib, config, c, rep, task, design, free, dear);
    CollisionChoice(lib, config, c', rep, task, design, free, dear);
    CollisionRaises(config, c, c', rep, task, design, free, dear);
    OutsideRaised(lib, config, c, c');
  }

  lemma {:induction false} CollisionRaises(
    config: Config, c: Cell, c': Cell, rep: string, task: string, design: string, free: string, dear: string)
    requires rep != OUTSIDE && free != dear && config == Collision(rep, task, design, free, dear)
    requires SameButProfile(config, c, c')
    requires c.design == design && c.taskClass == task && c.profile == free && c'.profile == dear
    ensures QuotesRaised(config, c, c', OUTSIDE)
  {
    forall r | Offered(config.designs[c.design], c.taskClass, r)
      ensures CellPrice(config, c, r) == 0.0 && CellPrice(config, c', r) == if r == OUTSIDE then 9.0 else 0.0
    {
      assert r == OUTSIDE || r == rep;
    }
  }

  // ---------- two latency multipliers ----------

  lemma {:induction false} Quotient(e: real, f: real)
    requires e > 0.0 && f > 0.0 && e * f == 1.0
    ensures 1.0 / (1.0 + f) == e / (1.0 + e)
  {
    assert e * (1.0 + f) == 1.0 + e;
    CrossMultiply(1.0, 1.0 + f, e, 1.0 + e);
  }

  lemma {:induction false} CrossMultiply(a: real, b: real, c: real, d: real)
    requires b > 0.0 && d > 0.0 && a * d == c * b
    ensures a / b == c / d
  {
    var x, y := a / b, c / d;
    assert x * b == a && y * d == c;
    assert (x - y) * (b * d) == 0.0;
  }

  /** The two-sided evaluation is the textbook logistic function, strictly between zero and one. */
  lemma {:induction false} LogisticIsStable(lib: Library, x: real)
    ensures lib.exp(-x) > 0.0 && Logistic(lib, x) == 1.0 / (1.0 + lib.exp(-x))
    ensures 0.0 < Logistic(lib, x) < 1.0
  {
    assert lib.exp(x) > 0.0 && lib.exp(-x) > 0.0 && lib.exp(x) * lib.exp(-x) == 1.0;
    Quotient(lib.exp(x), lib.exp(-x));
  }

  lemma {:induction false} Reciprocal(f: real, g: real)
    requires 0.0 < f <= g
    ensures 1.0 / g <= 1.0 / f
  {
  }

  lemma {:induction false} LogisticMonotone(lib: Library, x: real, y: real)
    requires x <= y
    ensures Logistic(lib, x) <= Logistic(lib, y)
  {
    LogisticIsStable(lib, x);
    LogisticIsStable(lib, y);
    assert lib.exp(-y) <= lib.exp(-x);
    Reciprocal(1.0 + lib.exp(-y), 1.0 + lib.exp(-x));
  }

  lemma {:induction false} LogitFalls(task: TaskClass, quality: real, x: real, y: real)
    requires task.temperature > 0.0 && task.latencyPenalty >= 0.0 && x <= y
    ensures Logit(task, quality, y) <= Logit(task, quality, x)
  {
    var a, b := NotNegative(x - task.latencyReference), NotNegative(y - task.latencyReference);
    assert task.latencyPenalty * a <= task.latencyPenalty * b;
  }

  lemma {:induction false} LatencyScales(st: Stream, s: RngState, path: Path, size: int, m: real, m': real)
    requires m <= m'
    ensures
      var e, e' := Served(st, s, path, size, m), Served(st, s, path, size, m');
      e' == e.(feltLatency := e'.feltLatency) && e.feltLatency <= e'.feltLatency
  {
    var base := NotNegative(path.latency + Normal(st, s) * path.jitter);
    assert base * m <= base * m';
  }

  /**
   Slower service over one seed: the same decision and the same cost, and with
   a non-negative latency penalty a failure never turns into a success.
   */
  lemma {:induction false} SlowerNeverHelps(lib: Library, config: Config, c: Cell, c': Cell)
    requires Known(config, c) && c' == c.(multiplier := c'.multiplier) && c.multiplier <= c'.multiplier
    requires config.taskClasses[c.taskClass].latencyPenalty >= 0.0
    ensures Known(config, c') && CellChoice(lib, config, c') == CellChoice(lib, config, c)
    ensures
      var o, o' := SessionOutcome(lib, config, c), SessionOutcome(lib, config, c');
      && o'.realizedCost == o.realizedCost && o'.bytesRead == o.bytesRead
      && (o'.success ==> o.success)
  {
    var d := CellChoice(lib, config, c);
    if d.selected.Some? {
      var task, rep, st := config.taskClasses[c.taskClass], d.selected.value, lib.stream(c.seed);
      SelectedIsOffered(lib, config, c);
      var r, path, s := config.representations[rep], config.designs[c.design][rep], EntryState(lib, config, c);
      var e, e' := Served(st, s, path, r.size, c.multiplier), Served(st, s, path, r.size, c'.multiplier);
      LatencyScales(st, s, path, r.size, c.multiplier, c'.multiplier);
      var quality := QualityFor(r, c.taskClass);
      LogitFalls(task, quality, e.feltLatency, e'.feltLatency);
      LogisticMonotone(lib, Logit(task, quality, e'.feltLatency), Logit(task, quality, e.feltLatency));
    }
  }
}
