/**
 * The documents of the `health_records` collection and the two rules that
 * produce them from one date's posted metrics: the `$set` applied to an
 * existing document and the document inserted when there is none
 * (server.py, `upload_health_data`).
 */
module Records {
  import opened Wrappers

  /** The `categories` object of one day. The server stores and returns it
      whole and never looks inside it. */
  type Categories = map<string, seq<real>>

  /** One stored document (without Mongo's `_id`). */
  datatype Record = Record(
    userId: string,
    date: string,
    stepCount: int,
    distance: real,
    avgHeartRate: Option<real>,
    activeEnergy: real,
    categories: Categories)

  /** The metrics object posted for one date; `None` is a key that is absent. */
  datatype Metrics = Metrics(
    stepCount: Option<int>,
    distance: Option<real>,
    avgHeartRate: Option<real>,
    activeEnergy: Option<real>,
    categories: Option<Categories>)

  /** A metrics object with no keys at all. */
  const NoMetrics := Metrics(None, None, None, None, None)

  /** The `(user_id, date)` pair that the server looks documents up by. */
  function Key(r: Record): (string, string) {
    (r.userId, r.date)
  }

  predicate HasKey(r: Record, userId: string, date: string) {
    r.userId == userId && r.date == date
  }

  /** The document update_one writes over an existing one: the three additive
      fields are summed, an absent key counting as zero; heart rate and
      categories are replaced when the key is posted and kept otherwise. */
  function Merge(existing: Record, m: Metrics): (r: Record)
    ensures Key(r) == Key(existing)
    ensures m == NoMetrics ==> r == existing
  {
    existing.(
      stepCount := existing.stepCount + m.stepCount.GetOr(0),
      distance := existing.distance + m.distance.GetOr(0.0),
      activeEnergy := existing.activeEnergy + m.activeEnergy.GetOr(0.0),
      avgHeartRate := if m.avgHeartRate.Some? then m.avgHeartRate else existing.avgHeartRate,
      categories := m.categories.GetOr(existing.categories))
  }

  /** The document insert_one adds when no document has the key yet. */
  function NewRecord(userId: string, date: string, m: Metrics): (r: Record)
    ensures HasKey(r, userId, date)
  {
    Record(userId, date, m.stepCount.GetOr(0), m.distance.GetOr(0.0), m.avgHeartRate,
           m.activeEnergy.GetOr(0.0), m.categories.GetOr(map[]))
  }

  /** The all-default document: no steps, distance or energy, no heart rate, no categories. */
  function Blank(userId: string, date: string): Record {
    Record(userId, date, 0, 0.0, None, 0.0, map[])
  }

  /** The single metrics object whose merge has the effect of merging `a` and then `b`. */
  function Then(a: Metrics, b: Metrics): Metrics {
    Metrics(
      Some(a.stepCount.GetOr(0) + b.stepCount.GetOr(0)),
      Some(a.distance.GetOr(0.0) + b.distance.GetOr(0.0)),
      if b.avgHeartRate.Some? then b.avgHeartRate else a.avgHeartRate,
      Some(a.activeEnergy.GetOr(0.0) + b.activeEnergy.GetOr(0.0)),
      if b.categories.Some? then b.categories else a.categories)
  }

  /** Inserting is merging into the all-default document. */
  lemma NewRecordIsMergeIntoBlank(userId: string, date: string, m: Metrics)
    ensures NewRecord(userId, date, m) == Merge(Blank(userId, date), m)
  {
  }

  /** Two merges in a row act as one merge of the combined metrics: the
      additive fields receive both amounts, and heart rate and categories
      end up as the later posted value, else the earlier, else the stored one. */
  lemma MergeTwice(e: Record, a: Metrics, b: Metrics)
    ensures Merge(Merge(e, a), b) == Merge(e, Then(a, b))
    ensures Merge(Merge(e, a), b).stepCount == e.stepCount + a.stepCount.GetOr(0) + b.stepCount.GetOr(0)
  {
  }

  /** Merging is additive, not idempotent: posting the same non-zero step
      count twice counts it twice. */
  lemma MergeNotIdempotent(e: Record, m: Metrics)
    requires m.stepCount.Some? && m.stepCount.value != 0
    ensures Merge(Merge(e, m), m) != Merge(e, m)
  {
    assert Merge(Merge(e, m), m).stepCount == Merge(e, m).stepCount + m.stepCount.value;
  }

  /** With non-negative amounts, the additive fields never decrease. */
  lemma MergeMonotone(e: Record, m: Metrics)
    requires m.stepCount.GetOr(0) >= 0 && m.distance.GetOr(0.0) >= 0.0 && m.activeEnergy.GetOr(0.0) >= 0.0
    ensures Merge(e, m).stepCount >= e.stepCount
    ensures Merge(e, m).distance >= e.distance
    ensures Merge(e, m).activeEnergy >= e.activeEnergy
  {
  }

  /** The additive fields do not depend on the order of two merges, but heart
      rate does: the later posted value wins. */
  lemma MergeOrder(e: Record, a: Metrics, b: Metrics)
    ensures Merge(Merge(e, a), b).stepCount == Merge(Merge(e, b), a).stepCount
    ensures Merge(Merge(e, a), b).distance == Merge(Merge(e, b), a).distance
    ensures Merge(Merge(e, a), b).activeEnergy == Merge(Merge(e, b), a).activeEnergy
    ensures (a.avgHeartRate.Some? && b.avgHeartRate.Some? && a.avgHeartRate != b.avgHeartRate)
            ==> Merge(Merge(e, a), b) != Merge(Merge(e, b), a)
  {
  }
}
