/** Which fact a query may show: schema versions, validity, retirement and retention heads. */
module Visibility {
  import opened Prelude
  import opened Cells
  import opened Catalog

  // A version is in effect at a time.
  predicate Effective(v: Version, ts: int) { v.effective.Some? && v.effective.value <= ts }

  // Versions take effect in the order in which they are listed.
  predicate InOrder(versions: seq<Version>) {
    forall i, j | 0 <= i < j < |versions| && versions[j].effective.Some? ::
      versions[i].effective.Some? && versions[i].effective.value <= versions[j].effective.value
  }

  /** The version that governs a time: in effect, and no later one is. */
  predicate Governs(versions: seq<Version>, i: nat, ts: int) {
    i < |versions| && Effective(versions[i], ts) && forall j | i < j < |versions| :: !Effective(versions[j], ts)
  }

  datatype Contract = Contract(kind: ValueType, validity: Validity)

  // How many of the leading versions are in effect at a time.
  function Active(versions: seq<Version>, ts: int): (n: nat)
    ensures n <= |versions|
  {
    if versions == [] || versions[0].effective.None? || versions[0].effective.value > ts then 0
    else 1 + Active(versions[1..], ts)
  }

  /** The version that a fact was written under. */
  function Resolve(versions: seq<Version>, field: nat, ts: int): Result<Contract> {
    var active := Active(versions, ts);
    if active == 0 then Err(Corruption) else
    var version := versions[active - 1];
    if field !in version.fields then Err(Corruption) else Ok(Contract(version.fields[field], version.validity))
  }

  predicate IsLive(c: Contract, factTs: int, at: int) {
    factTs <= at && match c.validity case Forever => true case Seconds(n) => at - factTs < n
  }

  // The later of the two retirements that concern a key.
  function Retired(t: Table, k: Key): Option<I64> {
    var s := if k.series in t.retiredSeries then Some(t.retiredSeries[k.series]) else None;
    var f := if k.field in t.retiredFields then Some(t.retiredFields[k.field]) else None;
    if s.None? then f else if f.None? then s else if s.value >= f.value then s else f
  }

  predicate Withdrawn(t: Table, k: Key, f: Fact, at: int) {
    Retired(t, k).Some? && at > Retired(t, k).value && f.ts <= Retired(t, k).value
  }

  function Visible(t: Table, k: Key, f: Fact, at: int): Result<bool> {
    match Resolve(t.versions, k.field, f.ts)
    case Err(e) => Err(e)
    case Ok(c) => Ok(!Withdrawn(t, k, f, at) && IsLive(c, f.ts, at))
  }

  // ------------------------------------------------------------------ meaning

  /** The active versions are those in effect. */
  lemma {:induction false} ActiveAre(versions: seq<Version>, ts: int)
    requires InOrder(versions)
    ensures forall i | 0 <= i < |versions| :: i < Active(versions, ts) <==> Effective(versions[i], ts)
    decreases |versions|
  {
    if versions != [] && Effective(versions[0], ts) {
      var rest := versions[1..];
      ActiveAre(rest, ts);
      forall i | 0 <= i < |versions| ensures i < Active(versions, ts) <==> Effective(versions[i], ts) {
        if i > 0 { assert versions[i] == rest[i - 1]; }
      }
    }
  }

  /** A fact is read by the type and the validity of the version that governs its time. */
  lemma ResolveIff(versions: seq<Version>, field: nat, ts: int, c: Contract)
    requires InOrder(versions)
    ensures Resolve(versions, field, ts) == Ok(c) <==> exists i: nat ::
      Governs(versions, i, ts) && field in versions[i].fields
      && c.kind == versions[i].fields[field] && c.validity == versions[i].validity
    ensures Resolve(versions, field, ts).Ok? <==> exists i: nat ::
      Governs(versions, i, ts) && field in versions[i].fields
  {
    ActiveAre(versions, ts);
    var n := Active(versions, ts);
    forall i: nat ensures Governs(versions, i, ts) <==> n > 0 && i == n - 1 {
      if Governs(versions, i, ts) && i + 1 < |versions| { assert !Effective(versions[i + 1], ts); }
    }
    hide Active;
  }

  // A time at which the series or the field of a key was retired.
  predicate Cutoff(t: Table, k: Key, at: I64) {
    || (k.series in t.retiredSeries && t.retiredSeries[k.series] == at)
    || (k.field in t.retiredFields && t.retiredFields[k.field] == at)
  }

  /** A fact is withdrawn once all retirements of its series and field have passed, one of them not before it. */
  lemma WithdrawnIff(t: Table, k: Key, f: Fact, at: int)
    ensures Withdrawn(t, k, f, at) <==>
      (exists c: I64 :: Cutoff(t, k, c) && f.ts <= c) && (forall c: I64 | Cutoff(t, k, c) :: c < at)
  {
    if Retired(t, k).Some? { assert Cutoff(t, k, Retired(t, k).value); }
    if k.series in t.retiredSeries { assert Cutoff(t, k, t.retiredSeries[k.series]); }
    if k.field in t.retiredFields { assert Cutoff(t, k, t.retiredFields[k.field]); }
  }

  /** A fact of a key can be seen at a time: it is not later, still valid, and not withdrawn. */
  ghost predicate Seen(t: Table, k: Key, f: Fact, i: nat, at: int) {
    && Governs(t.versions, i, f.ts) && k.field in t.versions[i].fields
    && f.ts <= at && (t.versions[i].validity.Seconds? ==> at < f.ts + t.versions[i].validity.count)
    && ((forall c: I64 | Cutoff(t, k, c) :: c < f.ts) || exists c: I64 :: Cutoff(t, k, c) && at <= c)
  }

  lemma VisibleIff(t: Table, k: Key, f: Fact, at: int)
    requires InOrder(t.versions)
    ensures Visible(t, k, f, at) == Ok(true) <==> exists i: nat :: Seen(t, k, f, i, at)
    ensures Visible(t, k, f, at).Ok? <==> exists i: nat ::
      Governs(t.versions, i, f.ts) && k.field in t.versions[i].fields
  {
    hide Resolve, Withdrawn, Cutoff, InOrder, Seen, IsLive;
    match Resolve(t.versions, k.field, f.ts)
    case Err(_) =>
      ResolveIff(t.versions, k.field, f.ts, Contract(UIntType, Forever));
      forall i: nat | Seen(t, k, f, i, at) ensures false { SeenGoverns(t, k, f, i, at); }
    case Ok(c) =>
      ResolveIff(t.versions, k.field, f.ts, c);
      var i: nat :| Governs(t.versions, i, f.ts) && k.field in t.versions[i].fields
                    && c.kind == t.versions[i].fields[k.field] && c.validity == t.versions[i].validity;
      SeenAt(t, k, f, i, c, at);
      forall j: nat | Seen(t, k, f, j, at) ensures j == i {
        SeenGoverns(t, k, f, j, at);
        OneGoverns(t.versions, i, j, f.ts);
      }
  }

  lemma SeenGoverns(t: Table, k: Key, f: Fact, i: nat, at: int)
    requires Seen(t, k, f, i, at)
    ensures Governs(t.versions, i, f.ts) && k.field in t.versions[i].fields
  {
    hide Cutoff;
  }

  lemma SeenAt(t: Table, k: Key, f: Fact, i: nat, c: Contract, at: int)
    requires Governs(t.versions, i, f.ts) && k.field in t.versions[i].fields && c.validity == t.versions[i].validity
    ensures Seen(t, k, f, i, at) <==> !Withdrawn(t, k, f, at) && IsLive(c, f.ts, at)
  {
    hide Withdrawn, Cutoff, Governs;
    WithdrawnIff(t, k, f, at);
  }

  lemma OneGoverns(versions: seq<Version>, i: nat, j: nat, ts: int)
    requires Governs(versions, i, ts) && Governs(versions, j, ts)
    ensures i == j
  {
  }

  /** What cannot be seen at one moment can never be seen again. */
  lemma InvisibleForEver(t: Table, k: Key, f: Fact, floor: int, at: int)
    requires f.ts <= floor <= at
    ensures Visible(t, k, f, floor) == Ok(false) ==> Visible(t, k, f, at) == Ok(false)
    ensures Visible(t, k, f, floor).Err? <==> Visible(t, k, f, at).Err?
  {
    hide Resolve;
  }

  // A retention head stands in where no fact is left.
  function WithHead(fact: Option<Fact>, heads: map<Key, Fact>, k: Key, at: int): Option<Fact> {
    if fact.Some? then fact else if k in heads && heads[k].ts <= at then Some(heads[k]) else None
  }

  datatype Lookup = Value(value: Cell, at: I64) | NullAt(at: I64) | Missing
  datatype Slot = Carrying(value: Cell, source: I64, carried: bool) | CarryingNull(source: I64, carried: bool) | Gap

  function LookupOf(t: Table, k: Key, fact: Option<Fact>, at: int): Result<Lookup> {
    match fact
    case None => Ok(Missing)
    case Some(f) =>
      match Visible(t, k, f, at)
      case Err(e) => Err(e)
      case Ok(seen) => Ok(if !seen then Missing else if f.value.Null? then NullAt(f.ts) else Value(f.value, f.ts))
  }

  function SlotOf(t: Table, k: Key, fact: Option<Fact>, at: int): Result<Slot> {
    match fact
    case None => Ok(Gap)
    case Some(f) =>
      match Visible(t, k, f, at)
      case Err(e) => Err(e)
      case Ok(seen) =>
        Ok(if !seen then Gap
           else if f.value.Null? then CarryingNull(f.ts, f.ts < at)
           else Carrying(f.value, f.ts, f.ts < at))
  }

  /** What one key shows at one time: the latest fact, or a head, if it is visible. */
  function ValueAt(units: seq<Unit>, t: Table, heads: map<Key, Fact>, k: Key, at: int): Result<Lookup>
    requires UnitsOk(units)
  {
    LookupOf(t, k, WithHead(Predecessor(AllFacts(units, t, k), at), heads, k, at), at)
  }

  // What a fact shows when it can be seen.
  function Answer(f: Fact): Lookup { if f.value.Null? then NullAt(f.ts) else Value(f.value, f.ts) }

  /**
   A lookup shows the fact it is about exactly when that can be seen. It shows nothing when it
   cannot, and it fails exactly when the version that governs the fact does not know the field.
   */
  lemma LookupIff(t: Table, k: Key, f: Fact, at: int)
    requires InOrder(t.versions)
    ensures LookupOf(t, k, Some(f), at) == Ok(Answer(f)) <==> exists i: nat :: Seen(t, k, f, i, at)
    ensures LookupOf(t, k, Some(f), at).Ok? <==> exists i: nat ::
      Governs(t.versions, i, f.ts) && k.field in t.versions[i].fields
    ensures LookupOf(t, k, Some(f), at).Ok? && LookupOf(t, k, Some(f), at) != Ok(Answer(f)) ==>
      LookupOf(t, k, Some(f), at) == Ok(Missing)
  {
    hide Visible, Seen, InOrder;
    VisibleIff(t, k, f, at);
  }

  /** A slot of a sample shows the same as a lookup at its time, and where it came from. */
  predicate Shows(slot: Slot, lookup: Lookup, at: int) {
    match slot
    case Gap => lookup.Missing?
    case Carrying(v, source, carried) => lookup == Value(v, source) && (carried <==> source < at)
    case CarryingNull(source, carried) => lookup == NullAt(source) && (carried <==> source < at)
  }

  lemma SlotShows(t: Table, k: Key, fact: Option<Fact>, at: int)
    ensures SlotOf(t, k, fact, at).Ok? <==> LookupOf(t, k, fact, at).Ok?
    ensures SlotOf(t, k, fact, at).Ok? ==> Shows(SlotOf(t, k, fact, at).value, LookupOf(t, k, fact, at).value, at)
  {
    hide Visible;
  }
}
