/** What the parts promise together: whatever settings are live, what was laid out can be swept down under the caps. */
module Guarantees {
  import opened Basics
  import opened Runes
  import opened Catalog
  import opened Items
  import opened Paths
  import opened Layout
  import Settings
  import opened Storage
  import opened Eviction

  /** Where the file of a ready row was placed: by which directory names, for which item. */
  datatype Origin = Origin(movies: string, shows: string, other: string, item: Item)

  function LayoutOf(root: string, o: Origin): Layout { Layout(Lit(root), o.movies, o.shows, o.other) }

  function PolicyOf(cfg: Settings.Config): Policy { Policy(Lit(cfg.env.mediaRoot), cfg.limits.hard, cfg.limits.soft) }

  /** The directory names a running configuration hands to the layout are always usable. */
  lemma EffectiveDirsOk(c: Settings.Clock, base: Settings.Config, vals: Settings.Values, item: Item)
    requires Settings.WithinBounds(base) && Settings.EffectiveOf(c, base, vals).Ok?
    ensures
      var cfg := Settings.EffectiveOf(c, base, vals).value;
      DirsOk(LayoutOf(cfg.env.mediaRoot, Origin(cfg.dirs.movies, cfg.dirs.shows, cfg.dirs.other, item)))
  {
    Settings.EffectiveWithinBounds(c, base, vals);
    hide Settings.EffectiveOf, CheckDir;
  }

  /** Every ready row's file is one that Final placed under this root, whatever the directories were called then. */
  ghost predicate Placed(root: string, rows: Table, origins: map<nat, Origin>) {
    forall id | id in ReadyIds(rows) ::
      && id in origins
      && DirsOk(LayoutOf(root, origins[id])) && NoSlash(Extension(origins[id].item.container))
      && Final(LayoutOf(root, origins[id]), origins[id].item).Ok?
      && rows[id].localPath == Some(Final(LayoutOf(root, origins[id]), origins[id].item).value)
  }

  lemma PlacedIsInRoot(root: string, cwd: Str, p: Policy, rows: Table, origins: map<nat, Origin>, id: nat)
    requires Rooted(cwd) && p.root == Lit(root) && Placed(root, rows, origins) && id in ReadyIds(rows)
    ensures InRoot(p, cwd, rows[id])
  {
    FinalIsUnderRoot(cwd, LayoutOf(root, origins[id]), origins[id].item);
    hide Final, DirsOk, Extension, PathIsUnderRoot, Abs;
  }

  /**
   * Under any settings that Effective accepts, one sweep of a table of downloaded files ends
   * under the caps, frees exactly what it reports, and leaves a second sweep nothing to do.
   */
  lemma {:induction false} RunningSweepSettles(c: Settings.Clock, base: Settings.Config, vals: Settings.Values,
                                               cwd: Str, rows: Table, origins: map<nat, Origin>)
    requires Settings.WithinBounds(base) && Settings.EffectiveOf(c, base, vals).Ok? && Rooted(cwd)
    requires Placed(base.env.mediaRoot, rows, origins)
    ensures
      var p := PolicyOf(Settings.EffectiveOf(c, base, vals).value);
      var after := AfterSweep(p, cwd, rows);
      && !Over(p, Used(after)) && Used(rows) == Used(after) + Total(rows, Chosen(p, cwd, rows))
      && AfterSweep(p, cwd, after) == after
  {
    Settings.EffectiveWithinBounds(c, base, vals);
    var cfg := Settings.EffectiveOf(c, base, vals).value;
    var p := PolicyOf(cfg);
    assert cfg.env == base.env;
    hide Settings.EffectiveOf, InRoot, Placed, Chosen, AfterSweep, Over, Used;
    forall id | id in rows && rows[id].status.Ready?
      ensures InRoot(p, cwd, rows[id])
    {
      assert id in ReadyIds(rows);
      PlacedIsInRoot(base.env.mediaRoot, cwd, p, rows, origins, id);
    }
    SweepSettles(p, cwd, rows);
    Conserves(p, cwd, rows);
    SecondSweepTakesNothing(p, cwd, rows);
  }

  lemma Conserves(p: Policy, cwd: Str, rows: Table)
    requires Rooted(cwd)
    ensures (forall id | id in Chosen(p, cwd, rows) :: id in rows)
    ensures Used(rows) == Used(AfterSweep(p, cwd, rows)) + Total(rows, Chosen(p, cwd, rows))
  {
    SweepConserves(p, cwd, rows);
  }
}
