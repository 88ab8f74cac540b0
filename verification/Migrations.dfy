/**
 * The two data-consolidating migrations (alembic/versions/0006_domain_contract_identity.py and
 * alembic/versions/0007_crypto_evidence_signals.py): duplicate rows are merged into one keeper and whatever
 * pointed at them is moved to it.
 */
module Migrations {
  import opened Outcomes

  datatype Identity = Identity(market: string, domain: string)

  /** A stored fingerprint, or the one migration 0006 derives from the identity (its hash is taken as injective). */
  datatype Fingerprint = Stored(text: string) | Derived(identity: Identity)

  datatype Contract = Contract(identity: Identity, fingerprint: Fingerprint)

  datatype Prediction = Prediction(contract: Option<int>, inputHash: string)

  /** Rows by id; a feature or a metric holds the id of its prediction. */
  datatype Db = Db(
    contracts: map<int, Contract>, predictions: map<int, Prediction>,
    features: map<int, int>, metrics: map<int, Option<int>>)

  /** Foreign keys point at existing rows. */
  ghost predicate ValidRefs(db: Db) {
    && (forall p :: p in db.predictions && db.predictions[p].contract.Some? ==>
      db.predictions[p].contract.value in db.contracts)
    && (forall f :: f in db.features ==> db.features[f] in db.predictions)
    && (forall m :: m in db.metrics && db.metrics[m].Some? ==> db.metrics[m].value in db.predictions)
  }

  // ---- The least and the greatest id ----

  ghost function Member<T(!new)>(s: set<T>): (x: T)
    requires s != {}
    ensures x in s
  {
    var x :| x in s;
    x
  }

  lemma {:induction false} LargestExists(s: set<int>)
    requires s != {}
    ensures exists m :: m in s && forall x :: x in s ==> x <= m
  {
    var x := Member(s);
    var rest := s - {x};
    if rest == {} {
      assert s == {x};
    } else {
      LargestExists(rest);
      var m :| m in rest && forall y :: y in rest ==> y <= m;
      var best := if x <= m then m else x;
      assert forall y :: y in s ==> y == x || y in rest;
      assert best in s && forall y :: y in s ==> y <= best;
    }
  }

  function Largest(s: set<int>): (m: int)
    requires s != {}
    ensures m in s && forall x :: x in s ==> x <= m
  {
    LargestExists(s);
    var m :| m in s && forall x :: x in s ==> x <= m;
    m
  }

  function Smallest(s: set<int>): (m: int)
    requires s != {}
    ensures m in s && forall x :: x in s ==> m <= x
  {
    var negated := set x | x in s :: -x;
    assert -Member(s) in negated;
    var m := -Largest(negated);
    assert forall x :: x in s ==> -x in negated;
    m
  }

  // ---- Migration 0006: one contract for each market and domain ----

  function SameIdentity(contracts: map<int, Contract>, identity: Identity): set<int> {
    set id | id in contracts && contracts[id].identity == identity
  }

  /** The newest contract with the identity of contract `id` is kept. */
  function KeptContract(contracts: map<int, Contract>, id: int): int
    requires id in contracts
  {
    var same := SameIdentity(contracts, contracts[id].identity);
    assert id in same;
    Largest(same)
  }

  /** The tables once the identities in `done` are consolidated. */
  function Consolidated(db: Db, done: set<Identity>): Db {
    Db(
      map id | id in db.contracts
        && (db.contracts[id].identity in done ==> id == KeptContract(db.contracts, id)) ::
        if db.contracts[id].identity in done
        then db.contracts[id].(fingerprint := Derived(db.contracts[id].identity)) else db.contracts[id],
      map p | p in db.predictions :: Moved(db.contracts, done, db.predictions[p]),
      db.features, db.metrics)
  }

  function Moved(contracts: map<int, Contract>, done: set<Identity>, p: Prediction): Prediction {
    if p.contract.Some? && p.contract.value in contracts && contracts[p.contract.value].identity in done
    then p.(contract := Some(KeptContract(contracts, p.contract.value))) else p
  }

  function Identities(db: Db): set<Identity> {
    set id | id in db.contracts :: db.contracts[id].identity
  }

  function After0006(db: Db): Db { Consolidated(db, Identities(db)) }

  // ---- Migration 0007: one prediction for each contract and input ----

  datatype Key = Key(contract: int, inputHash: string)

  function KeyOf(p: Prediction): Option<Key> {
    if p.contract.Some? then Some(Key(p.contract.value, p.inputHash)) else None
  }

  function SameKey(predictions: map<int, Prediction>, key: Key): set<int> {
    set p | p in predictions && KeyOf(predictions[p]) == Some(key)
  }

  /** The oldest prediction with the key of prediction `p` is kept. */
  function KeptPrediction(predictions: map<int, Prediction>, p: int): int
    requires p in predictions
  {
    if KeyOf(predictions[p]).None? then p
    else
      var same := SameKey(predictions, KeyOf(predictions[p]).value);
      assert p in same;
      Smallest(same)
  }

  function Redirected(predictions: map<int, Prediction>, done: set<Key>, p: int): int {
    if p in predictions && KeyOf(predictions[p]).Some? && KeyOf(predictions[p]).value in done
    then KeptPrediction(predictions, p) else p
  }

  /** The tables once the duplicates of the keys in `done` are merged. */
  function Merged(db: Db, done: set<Key>): Db {
    Db(
      db.contracts,
      map p | p in db.predictions && Redirected(db.predictions, done, p) == p :: db.predictions[p],
      map f | f in db.features :: Redirected(db.predictions, done, db.features[f]),
      map m | m in db.metrics ::
        if db.metrics[m].Some? then Some(Redirected(db.predictions, done, db.metrics[m].value)) else None)
  }

  /** The keys that more than one prediction has. */
  function DuplicateKeys(db: Db): set<Key> {
    set p | p in db.predictions && KeyOf(db.predictions[p]).Some?
      && |SameKey(db.predictions, KeyOf(db.predictions[p]).value)| > 1 :: KeyOf(db.predictions[p]).value
  }

  function After0007(db: Db): Db { Merged(db, DuplicateKeys(db)) }

  // ---- What the migrations preserve ----

  /** What a dependent row joins to: the market and domain of its prediction's contract, and the input hash. */
  datatype Joined = Joined(identity: Option<Identity>, inputHash: string)

  function Join(db: Db, p: int): Option<Joined> {
    if p !in db.predictions then None
    else
      var r := db.predictions[p];
      Some(Joined(
        if r.contract.Some? && r.contract.value in db.contracts then Some(db.contracts[r.contract.value].identity)
        else None, r.inputHash))
  }

  /** The keeper has the identity it keeps, and is its own keeper. */
  lemma KeptContractSame(contracts: map<int, Contract>, id: int)
    requires id in contracts
    ensures var k := KeptContract(contracts, id);
      k in contracts && contracts[k].identity == contracts[id].identity && KeptContract(contracts, k) == k
  {
  }

  /** The prediction keeps its hash, and points at the contract that is left of its contract's market and domain. */
  ghost predicate Repointed0006(db: Db, after: Db, p: int)
    requires ValidRefs(db) && p in db.predictions && p in after.predictions
  {
    var was, now := db.predictions[p].contract, after.predictions[p].contract;
    && after.predictions[p].inputHash == db.predictions[p].inputHash
    && (was.None? ==> now.None?)
    && (was.Some? ==> now.Some? && now.value in after.contracts)
    && (was.Some? ==> after.contracts[now.value].identity == db.contracts[was.value].identity)
  }

  /** 0006 keeps exactly the newest contract of each market and domain, and points its predictions at it. */
  lemma NewestKept(db: Db)
    requires ValidRefs(db)
    ensures var after := After0006(db);
      && (forall id :: id in after.contracts <==>
        id in db.contracts && forall j :: j in db.contracts && db.contracts[j].identity == db.contracts[id].identity ==> j <= id)
      && (forall id :: id in after.contracts ==> after.contracts[id].identity == db.contracts[id].identity)
      && (forall p :: p in db.predictions ==> p in after.predictions && Repointed0006(db, after, p))
  {
    var after := After0006(db);
    forall id | id in db.contracts
      ensures id == KeptContract(db.contracts, id) <==>
        forall j :: j in db.contracts && db.contracts[j].identity == db.contracts[id].identity ==> j <= id
    {
      KeptIsNewest(db.contracts, id);
    }
    forall p | p in db.predictions ensures Repointed0006(db, after, p) {
      if db.predictions[p].contract.Some? {
        var c := db.predictions[p].contract.value;
        KeptIsNewest(db.contracts, c);
        assert db.contracts[c].identity in Identities(db);
      }
    }
    forall id | id in db.contracts ensures db.contracts[id].identity in Identities(db) {
    }
  }

  lemma KeptIsNewest(contracts: map<int, Contract>, id: int)
    requires id in contracts
    ensures var k := KeptContract(contracts, id);
      && k in contracts && contracts[k].identity == contracts[id].identity
      && (forall j :: j in contracts && contracts[j].identity == contracts[id].identity ==> j <= k)
      && (forall j :: j in contracts && contracts[j].identity == contracts[id].identity ==> KeptContract(contracts, j) == k)
  {
    assert id in SameIdentity(contracts, contracts[id].identity);
    forall j | j in contracts && contracts[j].identity == contracts[id].identity ensures j <= KeptContract(contracts, id) {
      assert j in SameIdentity(contracts, contracts[id].identity);
    }
  }

  /** 0006: every market and domain has one contract, with the derived fingerprint; no reference dangles. */
  lemma Unique0006(db: Db)
    requires ValidRefs(db)
    ensures var after := After0006(db);
      && ValidRefs(after)
      && Identities(after) == Identities(db)
      && (forall i, j :: i in after.contracts && j in after.contracts && i != j ==>
        after.contracts[i].identity != after.contracts[j].identity
        && after.contracts[i].fingerprint != after.contracts[j].fingerprint)
  {
    var after := After0006(db);
    forall id | id in db.contracts ensures KeptContract(db.contracts, id) in after.contracts
      && after.contracts[KeptContract(db.contracts, id)].identity == db.contracts[id].identity
    {
      KeptContractSame(db.contracts, id);
      assert db.contracts[id].identity in Identities(db);
    }
    forall i | i in Identities(db) ensures i in Identities(after) {
      var id :| id in db.contracts && db.contracts[id].identity == i;
      assert KeptContract(db.contracts, id) in after.contracts;
    }
  }

  /** 0006 keeps every prediction, feature and metric, and what each of them joins to. */
  lemma JoinsSurvive0006(db: Db, p: int)
    requires ValidRefs(db)
    ensures var after := After0006(db);
      && after.predictions.Keys == db.predictions.Keys && after.features == db.features && after.metrics == db.metrics
      && Join(after, p) == Join(db, p)
  {
    if p in db.predictions && db.predictions[p].contract.Some? {
      var c := db.predictions[p].contract.value;
      KeptContractSame(db.contracts, c);
      assert db.contracts[c].identity in Identities(db);
    }
  }

  lemma KeptPredictionSame(predictions: map<int, Prediction>, p: int)
    requires p in predictions
    ensures var k := KeptPrediction(predictions, p);
      k in predictions && KeyOf(predictions[k]) == KeyOf(predictions[p]) && KeptPrediction(predictions, k) == k && k <= p
  {
    if KeyOf(predictions[p]).Some? {
      assert p in SameKey(predictions, KeyOf(predictions[p]).value);
    }
  }

  /** A key that only one prediction has needs no merging. */
  lemma OnlyOneKept(db: Db, p: int)
    requires p in db.predictions
    ensures Redirected(db.predictions, DuplicateKeys(db), p) == KeptPrediction(db.predictions, p)
  {
    var key := KeyOf(db.predictions[p]);
    if key.Some? && key.value !in DuplicateKeys(db) {
      var same, k := SameKey(db.predictions, key.value), KeptPrediction(db.predictions, p);
      assert p in same && k in same;
      if k != p {
        assert {k, p} <= same && |{k, p}| == 2;
        SubsetSize({k, p}, same);
      }
    }
  }

  lemma {:induction false} SubsetSize(a: set<int>, b: set<int>)
    requires a <= b
    ensures |a| <= |b|
  {
    if a != {} {
      var x := Member(a);
      SubsetSize(a - {x}, b - {x});
    }
  }

  /**
   * 0007: a prediction with a contract survives exactly when it is the oldest of its contract and input, one
   * without a contract always does, so no two share both; every feature and metric stays and none dangles.
   */
  lemma Unique0007(db: Db)
    requires ValidRefs(db)
    ensures var after := After0007(db);
      && ValidRefs(after)
      && after.contracts == db.contracts
      && after.features.Keys == db.features.Keys && after.metrics.Keys == db.metrics.Keys
      && (forall p :: p in after.predictions <==> p in db.predictions && p == KeptPrediction(db.predictions, p))
      && (forall p :: p in after.predictions ==> after.predictions[p] == db.predictions[p])
      && (forall i, j :: i in after.predictions && j in after.predictions && i != j ==>
        after.predictions[i].contract.None? || KeyOf(after.predictions[i]) != KeyOf(after.predictions[j]))
  {
    var after := After0007(db);
    forall p | p in db.predictions
      ensures Redirected(db.predictions, DuplicateKeys(db), p) == KeptPrediction(db.predictions, p)
      ensures KeptPrediction(db.predictions, p) in after.predictions
    {
      OnlyOneKept(db, p);
      KeptPredictionSame(db.predictions, p);
      OnlyOneKept(db, KeptPrediction(db.predictions, p));
    }
    assert after.features.Keys == db.features.Keys;
    assert after.metrics.Keys == db.metrics.Keys;
  }

  ghost predicate SameInput(p: Prediction, q: Prediction) {
    p.contract == q.contract && p.inputHash == q.inputHash
  }

  /** 0007 keeps exactly the oldest prediction of each contract and input, and every prediction without a contract. */
  lemma OldestKept(db: Db)
    requires ValidRefs(db)
    ensures var rows := db.predictions;
      forall p :: p in After0007(db).predictions <==>
        p in rows && (rows[p].contract.None? || forall q :: q in rows && SameInput(rows[p], rows[q]) ==> p <= q)
  {
    hide After0007;
    Unique0007(db);
    var rows := db.predictions;
    forall p | p in rows && rows[p].contract.Some?
      ensures p == KeptPrediction(rows, p) <==> forall q :: q in rows && SameInput(rows[p], rows[q]) ==> p <= q
    {
      var same := SameKey(rows, KeyOf(rows[p]).value);
      assert p in same;
      assert forall q :: q in rows ==> (q in same <==> SameInput(rows[p], rows[q]));
    }
  }

  /** 0007 keeps what every feature and metric joins to. */
  lemma JoinsSurvive0007(db: Db)
    requires ValidRefs(db)
    ensures var after := After0007(db);
      && (forall f :: f in db.features ==> Join(after, after.features[f]) == Join(db, db.features[f]))
      && (forall m :: m in db.metrics && db.metrics[m].Some? ==>
        after.metrics[m].Some? && Join(after, after.metrics[m].value) == Join(db, db.metrics[m].value))
  {
    hide KeptPrediction, DuplicateKeys;
    Unique0007(db);
    forall p | p in db.predictions
      ensures Join(After0007(db), Redirected(db.predictions, DuplicateKeys(db), p)) == Join(db, p)
    {
      OnlyOneKept(db, p);
      KeptPredictionSame(db.predictions, p);
    }
  }

  /** Both migrations in order: market, domain and input hash are unique, nothing dangles, and every join is kept. */
  lemma BothMigrations(db: Db)
    requires ValidRefs(db)
    ensures var after := After0007(After0006(db));
      && ValidRefs(after)
      && (forall i, j :: i in after.contracts && j in after.contracts && i != j ==>
        after.contracts[i].identity != after.contracts[j].identity)
      && (forall i, j :: i in after.predictions && j in after.predictions && i != j ==>
        after.predictions[i].contract.None? || Join(after, i) != Join(after, j))
      && after.features.Keys == db.features.Keys
      && (forall f :: f in db.features ==> Join(after, after.features[f]) == Join(db, db.features[f]))
      && (forall m :: m in db.metrics && db.metrics[m].Some? ==>
        after.metrics[m].Some? && Join(after, after.metrics[m].value) == Join(db, db.metrics[m].value))
      && (forall p :: p in after.predictions ==> Join(after, p) == Join(db, p))
  {
    hide After0006, After0007;
    var middle := After0006(db);
    var after := After0007(middle);
    Unique0006(db);
    Unique0007(middle);
    JoinsSurvive0007(middle);
    forall p ensures Join(middle, p) == Join(db, p) && middle.features == db.features && middle.metrics == db.metrics {
      JoinsSurvive0006(db, p);
    }
    JoinsSurvive0006(db, 0);
  }

  // ---- The loops ----

  class Tables {
    var contracts: map<int, Contract>
    var predictions: map<int, Prediction>
    var features: map<int, int>
    var metrics: map<int, Option<int>>

    function Stored(): Db
      reads this
    {
      Db(contracts, predictions, features, metrics)
    }

    /** 0006, identity by identity; its result does not depend on their order. */
    method Upgrade0006()
      modifies this
      ensures Stored() == After0006(old(Stored()))
    {
      ghost var before := Stored();
      ghost var done := {};
      var todo := set id | id in contracts :: contracts[id].identity;
      NothingConsolidated(before);
      while todo != {}
        invariant Stored() == Consolidated(before, done)
        invariant done + todo == Identities(before) && done !! todo
        decreases todo
      {
        var identity :| identity in todo;
        ConsolidateStep(before, done, identity);
        var ids := SameIdentity(contracts, identity);
        var keeper := Largest(ids);
        var siblings := ids - {keeper};
        if siblings != {} {
          predictions := Repointed(predictions, siblings, keeper);
          contracts := contracts - siblings;
        }
        contracts := contracts[keeper := contracts[keeper].(fingerprint := Derived(identity))];
        todo, done := todo - {identity}, done + {identity};
      }
      assert done == Identities(before);
    }

    /** 0007, key by key. */
    method Upgrade0007()
      modifies this
      ensures Stored() == After0007(old(Stored()))
    {
      hide Merged, DuplicateKeys, RedirectedMetrics, SameKey;
      ghost var before := Stored();
      ghost var done := {};
      var todo := DuplicateKeys(Stored());
      NothingMerged(before);
      while todo != {}
        invariant Stored() == Merged(before, done)
        invariant done + todo == DuplicateKeys(before) && done !! todo
        decreases todo
      {
        var key :| key in todo;
        MergeStep(before, done, key);
        var ids := SameKey(predictions, key);
        var keeper := Smallest(ids);
        var duplicates := ids - {keeper};
        features := map f | f in features :: if features[f] in duplicates then keeper else features[f];
        metrics := RedirectedMetrics(metrics, duplicates, keeper);
        predictions := predictions - duplicates;
        todo, done := todo - {key}, done + {key};
      }
      assert done == DuplicateKeys(before);
    }
  }

  /** UPDATE prediction_runs SET contract_id = keeper WHERE contract_id IN siblings. */
  function Repointed(predictions: map<int, Prediction>, siblings: set<int>, keeper: int): map<int, Prediction> {
    map p | p in predictions ::
      if predictions[p].contract.Some? && predictions[p].contract.value in siblings
      then predictions[p].(contract := Some(keeper)) else predictions[p]
  }

  /** UPDATE calibration_metrics SET prediction_run_id = keeper WHERE prediction_run_id IN duplicates. */
  function RedirectedMetrics(metrics: map<int, Option<int>>, duplicates: set<int>, keeper: int): map<int, Option<int>> {
    map m | m in metrics :: if metrics[m].Some? && metrics[m].value in duplicates then Some(keeper) else metrics[m]
  }

  lemma NothingConsolidated(db: Db)
    ensures Consolidated(db, {}) == db
  {
    assert Consolidated(db, {}).contracts == db.contracts;
    forall p | p in db.predictions ensures Consolidated(db, {}).predictions[p] == db.predictions[p] {
    }
    assert Consolidated(db, {}).predictions == db.predictions;
  }

  lemma NothingMerged(db: Db)
    ensures Merged(db, {}) == db
  {
    assert Merged(db, {}).predictions == db.predictions;
    forall f | f in db.features ensures Merged(db, {}).features[f] == db.features[f] {
    }
    assert Merged(db, {}).features == db.features;
    forall m | m in db.metrics ensures Merged(db, {}).metrics[m] == db.metrics[m] {
    }
    assert Merged(db, {}).metrics == db.metrics;
  }

  /** The statements for one identity take the tables from the identities done to one more. */
  lemma ConsolidateStep(db: Db, done: set<Identity>, identity: Identity)
    requires identity in Identities(db) && identity !in done
    ensures var now := Consolidated(db, done);
      var ids := SameIdentity(now.contracts, identity);
      && ids != {}
      && var keeper := Largest(ids);
        var kept := now.contracts - (ids - {keeper});
        && keeper in now.contracts
        && Consolidated(db, done + {identity}) == Db(
          kept[keeper := now.contracts[keeper].(fingerprint := Derived(identity))],
          Repointed(now.predictions, ids - {keeper}, keeper), now.features, now.metrics)
        && Repointed(now.predictions, {}, keeper) == now.predictions
        && now.contracts - {} == now.contracts
  {
    var now, next := Consolidated(db, done), Consolidated(db, done + {identity});
    var ids := SameIdentity(now.contracts, identity);
    assert ids == SameIdentity(db.contracts, identity);
    var id :| id in db.contracts && db.contracts[id].identity == identity;
    assert id in ids;
    var keeper := Largest(ids);
    assert forall i :: i in ids ==> KeptContract(db.contracts, i) == keeper;
    var rows := (now.contracts - (ids - {keeper}))[keeper := now.contracts[keeper].(fingerprint := Derived(identity))];
    assert next.contracts == rows;
    forall p | p in db.predictions
      ensures next.predictions[p] == Repointed(now.predictions, ids - {keeper}, keeper)[p]
    {
      MovedStep(db, done, identity, db.predictions[p]);
    }
    assert next.predictions == Repointed(now.predictions, ids - {keeper}, keeper);
    assert Repointed(now.predictions, {}, keeper) == now.predictions;
  }

  /** Moving to the keepers of the identities done, and then to the next keeper. */
  lemma MovedStep(db: Db, done: set<Identity>, identity: Identity, p: Prediction)
    requires identity in Identities(db) && identity !in done
    ensures var ids := SameIdentity(db.contracts, identity);
      ids != {} &&
      var keeper, moved := Largest(ids), Moved(db.contracts, done, p);
      Moved(db.contracts, done + {identity}, p)
        == if moved.contract.Some? && moved.contract.value in ids && moved.contract.value != keeper
          then moved.(contract := Some(keeper)) else moved
  {
    var id :| id in db.contracts && db.contracts[id].identity == identity;
    assert id in SameIdentity(db.contracts, identity);
    if p.contract.Some? && p.contract.value in db.contracts {
      KeptContractSame(db.contracts, p.contract.value);
    }
  }

  /** The statements for one duplicate key. */
  lemma MergeStep(db: Db, done: set<Key>, key: Key)
    requires key in DuplicateKeys(db) && key !in done
    ensures var now := Merged(db, done);
      var ids := SameKey(now.predictions, key);
      && ids != {}
      && var keeper := Smallest(ids);
        var duplicates := ids - {keeper};
        && Merged(db, done + {key}) == Db(
          now.contracts, now.predictions - duplicates,
          map f | f in now.features :: if now.features[f] in duplicates then keeper else now.features[f],
          RedirectedMetrics(now.metrics, duplicates, keeper))
  {
    var now, next := Merged(db, done), Merged(db, done + {key});
    var ids := SameKey(now.predictions, key);
    assert ids == SameKey(db.predictions, key);
    var p :| p in db.predictions && KeyOf(db.predictions[p]) == Some(key);
    assert p in ids;
    var keeper := Smallest(ids);
    var duplicates := ids - {keeper};
    forall p ensures RedirectedOnce(db.predictions, done, key, keeper, duplicates, p) {
      RedirectStep(db, done, key, p);
    }
    MergedRows(db, done, key, keeper, duplicates);
  }

  /** What one more key does to where references to prediction p lead. */
  ghost predicate RedirectedOnce(
    predictions: map<int, Prediction>, done: set<Key>, key: Key, keeper: int, duplicates: set<int>, p: int)
  {
    Redirected(predictions, done + {key}, p)
      == if Redirected(predictions, done, p) in duplicates then keeper else Redirected(predictions, done, p)
  }

  lemma MergedRows(db: Db, done: set<Key>, key: Key, keeper: int, duplicates: set<int>)
    requires keeper !in duplicates && Redirected(db.predictions, done, keeper) == keeper
    requires forall p :: RedirectedOnce(db.predictions, done, key, keeper, duplicates, p)
    ensures var now := Merged(db, done);
      Merged(db, done + {key}) == Db(
        now.contracts, now.predictions - duplicates,
        map f | f in now.features :: if now.features[f] in duplicates then keeper else now.features[f],
        RedirectedMetrics(now.metrics, duplicates, keeper))
  {
    hide Redirected;
    var now, next := Merged(db, done), Merged(db, done + {key});
    forall p | p in db.predictions ensures p in next.predictions <==> p in now.predictions && p !in duplicates {
      assert RedirectedOnce(db.predictions, done, key, keeper, duplicates, p);
    }
    forall f | f in db.features
      ensures next.features[f] == if now.features[f] in duplicates then keeper else now.features[f]
    {
      assert RedirectedOnce(db.predictions, done, key, keeper, duplicates, db.features[f]);
    }
    forall m | m in db.metrics && db.metrics[m].Some?
      ensures next.metrics[m] == RedirectedMetrics(now.metrics, duplicates, keeper)[m]
    {
      assert RedirectedOnce(db.predictions, done, key, keeper, duplicates, db.metrics[m].value);
    }
    assert next.predictions == now.predictions - duplicates;
    assert next.features == map f | f in now.features :: if now.features[f] in duplicates then keeper else now.features[f];
    assert next.metrics == RedirectedMetrics(now.metrics, duplicates, keeper);
  }

  /** Redirecting to the keepers of the keys done, and then to the next keeper. */
  lemma RedirectStep(db: Db, done: set<Key>, key: Key, p: int)
    requires key in DuplicateKeys(db) && key !in done
    ensures var ids := SameKey(db.predictions, key);
      ids != {} &&
      var keeper, at := Smallest(ids), Redirected(db.predictions, done, p);
      Redirected(db.predictions, done + {key}, p) == if at in ids && at != keeper then keeper else at
  {
    var id :| id in db.predictions && KeyOf(db.predictions[id]) == Some(key);
    assert id in SameKey(db.predictions, key);
    if p in db.predictions {
      KeptPredictionSame(db.predictions, p);
    }
  }
}
