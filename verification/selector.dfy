/** Moving a DeploymentConfig's bare label selector under `matchLabels`
    (convert_deployment_config.py lines 37-48, python.py lines 60-73). */
module Selector {
  import opened Wrappers
  import opened YamlTree

  const MatchLabels: string := "matchLabels"

  /** The labels the migrated selector must hold: the former sibling entries,
      overriding same-named entries that `matchLabels` already had. */
  ghost predicate HoldsLabels(sel: map<string, Y>, labels: map<string, Y>)
    requires MatchLabels in sel ==> sel[MatchLabels].YMap?
  {
    var prior := if MatchLabels in sel then sel[MatchLabels].entries else map[];
    && (forall k :: k in labels <==> (k in sel && k != MatchLabels) || k in prior)
    && (forall k :: k in sel && k != MatchLabels ==> labels[k] == sel[k])
    && (forall k :: k in prior && (k !in sel || k == MatchLabels) ==> labels[k] == prior[k])
  }

  /** The selector after migration, or `None` when the copy loop raises
      `TypeError` because `matchLabels` is there but is not a mapping and
      there is some other entry to copy into it. */
  function Migrate(sel: map<string, Y>): (r: Option<map<string, Y>>)
    ensures r.None? <==> MatchLabels in sel && !sel[MatchLabels].YMap? && exists k :: k in sel && k != MatchLabels
    ensures r.Some? ==> r.value.Keys == {MatchLabels}
    ensures r.Some? && !r.value[MatchLabels].YMap? ==> r.value == sel
    ensures r.Some? && (MatchLabels in sel ==> sel[MatchLabels].YMap?) ==>
              r.value[MatchLabels].YMap? && HoldsLabels(sel, r.value[MatchLabels].entries)
  {
    var moved := sel - {MatchLabels};
    var labels := if MatchLabels in sel then sel[MatchLabels] else YMap(map[]);
    if moved == map[] then
      assert forall k :: k in sel ==> k == MatchLabels by {
        forall k | k in sel ensures k == MatchLabels {
          assert k !in moved;
        }
      }
      Some(map[MatchLabels := labels])
    else if labels.YMap? then
      Some(map[MatchLabels := YMap(labels.entries + moved)])
    else
      var k :| k in moved;
      assert k in sel && k != MatchLabels;
      None
  }

  /** Migration is idempotent: a migrated selector has nothing left to move. */
  lemma LemmaMigrateIdempotent(sel: map<string, Y>)
    requires Migrate(sel).Some?
    ensures Migrate(Migrate(sel).value) == Migrate(sel)
  {
    var s' := Migrate(sel).value;
    assert s' - {MatchLabels} == map[];
  }

  /** A selector of plain labels ends up wholly under `matchLabels`. */
  lemma LemmaMigratePlainLabels(sel: map<string, Y>)
    requires MatchLabels !in sel
    ensures Migrate(sel) == Some(map[MatchLabels := YMap(sel)])
  {
    assert sel - {MatchLabels} == sel;
    if sel == map[] {
      assert YMap(map[]) == YMap(sel);
    } else {
      assert map[] + sel == sel;
    }
  }
}
