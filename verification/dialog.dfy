/**
 The dialog state around the merge: the merged values, the modified flag and
 the window title that mirrors it, and the dialog's accept/reject result.
 */
module Dialog {
  import opened Wrappers
  import opened Track
  import opened Merge
  import opened MergeProperties

  /** The untranslated window title. */
  const BaseTitle: string := "Get Altitude From Database"

  /** The outcome a dialog reports to its caller. */
  datatype DialogResult = Accepted | Rejected

  datatype SrtmDialog = SrtmDialog(modified: bool, title: string, values: seq<real>, result: DialogResult)

  /** The window title carries a leading '*' exactly when the flag is set. */
  predicate TitleMatches(d: SrtmDialog)
  {
    d.title == (if d.modified then "*" + BaseTitle else BaseTitle)
  }

  /** A star in front of the title marks a modified dialog, and nothing else does. */
  lemma TitleMarksModified(d: SrtmDialog)
    requires TitleMatches(d)
    ensures d.modified <==> |d.title| > 0 && d.title[0] == '*'
    ensures d.title[|d.title| - |BaseTitle|..] == BaseTitle
  {
  }

  /** A freshly opened dialog: no values, not modified, plain title, and QDialog's initial result. */
  function Open(): (d: SrtmDialog)
    ensures !d.modified && d.values == [] && TitleMatches(d)
  {
    SetModified(SrtmDialog(false, "", [], Rejected), false)
  }

  /** Sets the flag and redraws the title; nothing else changes. */
  function SetModified(d: SrtmDialog, modified: bool): (d': SrtmDialog)
    ensures d'.modified == modified && TitleMatches(d')
    ensures d'.values == d.values && d'.result == d.result
  {
    d.(modified := modified, title := if modified then "*" + BaseTitle else BaseTitle)
  }

  /** The values of the last merge, as the caller reads them. */
  function GetValues(d: SrtmDialog): seq<real>
  {
    d.values
  }

  /**
   Runs the merge on the dialog: the values are replaced by what the run
   produced (also on failure, where they are the values computed before the
   miss); only a successful run sets the modified flag, a failed one leaves it
   and the title as they were.
   */
  function Fetch(d: SrtmDialog, t: TrackSegments, s: Strategy, lookup: Lookup): (r: (SrtmDialog, bool))
    ensures r.1 <==> |t| > 0 && AllLookupsFound(Flatten(t), s, lookup)
    ensures r.1 ==> r.0.modified && |GetValues(r.0)| == PointCount(t)
    ensures !r.1 ==> r.0.modified == d.modified && r.0.title == d.title
    ensures |t| == 0 ==> !r.1 && GetValues(r.0) == []
    ensures forall i :: 0 <= i < |GetValues(r.0)| ==>
              i < PointCount(t) && PointAltitude(s, Flatten(t)[i], lookup) == Some(GetValues(r.0)[i])
    ensures !r.1 && |t| > 0 ==>
              var k := |GetValues(r.0)|;
              && k < PointCount(t)
              && NeedsLookup(s, Flatten(t)[k])
              && lookup(Flatten(t)[k].latitude, Flatten(t)[k].longitude).None?
    ensures r.0.result == d.result
    ensures TitleMatches(d) ==> TitleMatches(r.0)
  {
    var run := Generate(t, s, lookup);
    GenerateSucceedsIff(t, s, lookup);
    GenerateValuesAligned(t, s, lookup);
    if |t| > 0 && !run.ok then
      MissKeepsPrefix(t, s, lookup);
      StoreRun(d, run)
    else
      StoreRun(d, run)
  }

  /** Stores a run's values and, when it succeeded, marks the dialog modified. */
  function StoreRun(d: SrtmDialog, run: MergeOutcome): (r: (SrtmDialog, bool))
    ensures r.1 == run.ok && r.0.values == run.values && r.0.result == d.result
    ensures r.1 ==> r.0.modified && TitleMatches(r.0)
    ensures !r.1 ==> r.0.modified == d.modified && r.0.title == d.title
  {
    var cleared := d.(values := run.values);
    if run.ok then (SetModified(cleared, true), true) else (cleared, false)
  }

  /**
   The dialog was accepted (QDialog::accept has set the result to Accepted):
   a modified dialog is cleared and stays accepted; an unmodified one is
   turned into a rejection, since there is nothing to hand back.
   */
  function Accept(d: SrtmDialog): (d': SrtmDialog)
    ensures d.modified ==> d'.result == Accepted
    ensures !d.modified ==> d'.result == Rejected
    ensures !d'.modified
    ensures d'.values == d.values
    ensures TitleMatches(d) ==> TitleMatches(d')
  {
    var accepted := d.(result := Accepted);
    if accepted.modified then SetModified(accepted, false) else accepted.(result := Rejected)
  }

  /**
   What a caller reads through GetValues: the values of the most recent fetch,
   whether it succeeded or not, unchanged by accepting the dialog. On success
   they are one altitude per track point, in segment-then-point order.
   */
  lemma GetValuesReportsLastRun(d: SrtmDialog, t: TrackSegments, s: Strategy, lookup: Lookup)
    ensures var fetched := Fetch(d, t, s, lookup).0;
      && GetValues(Accept(fetched)) == GetValues(fetched) == Generate(t, s, lookup).values
      && (Generate(t, s, lookup).ok ==>
            && |GetValues(fetched)| == PointCount(t)
            && forall i :: 0 <= i < PointCount(t) ==> PointAltitude(s, Flatten(t)[i], lookup) == Some(GetValues(fetched)[i]))
  {
  }

  /**
   A successful fetch followed by a failed one on a track with points: the
   flag set by the first survives, so accepting keeps the result Accepted,
   while the dialog now holds only the values computed before the miss.
   */
  lemma AcceptAfterFailedRefetch(d: SrtmDialog, t1: TrackSegments, t2: TrackSegments, s1: Strategy, s2: Strategy, lookup: Lookup)
    requires Generate(t1, s1, lookup).ok && |t2| > 0 && !Generate(t2, s2, lookup).ok
    ensures var d' := Accept(Fetch(Fetch(d, t1, s1, lookup).0, t2, s2, lookup).0);
      var k := |GetValues(d')|;
      && d'.result == Accepted
      && k < PointCount(t2)
      && NeedsLookup(s2, Flatten(t2)[k])
      && lookup(Flatten(t2)[k].latitude, Flatten(t2)[k].longitude).None?
      && forall i :: 0 <= i < k ==> PointAltitude(s2, Flatten(t2)[i], lookup) == Some(GetValues(d')[i])
  {
  }

  /**
   A user action on the dialog. A fetch carries the elevation database as it
   stands at that click: between clicks the user may install a missing tile.
   */
  datatype Event = FetchData(track: TrackSegments, strategy: Strategy, lookup: Lookup) | AcceptDialog

  function Step(d: SrtmDialog, e: Event): SrtmDialog
  {
    match e
    case FetchData(t, s, lookup) => Fetch(d, t, s, lookup).0
    case AcceptDialog => Accept(d)
  }

  function Run(d: SrtmDialog, es: seq<Event>): SrtmDialog
    decreases |es|
  {
    if |es| == 0 then d else Run(Step(d, es[0]), es[1..])
  }

  /**
   Over any sequence of user actions, with the database free to change
   between fetches, the title keeps mirroring the flag, and the flag is only
   set if it was set at the start or some fetch in the sequence succeeded.
   */
  lemma {:induction false} RunKeepsInvariant(d: SrtmDialog, es: seq<Event>)
    requires TitleMatches(d)
    ensures TitleMatches(Run(d, es))
    ensures Run(d, es).modified ==>
              || d.modified
              || exists k :: 0 <= k < |es| && es[k].FetchData? && Generate(es[k].track, es[k].strategy, es[k].lookup).ok
    decreases |es|
  {
    if |es| > 0 {
      var d1 := Step(d, es[0]);
      RunKeepsInvariant(d1, es[1..]);
      if Run(d, es).modified && !d.modified {
        if d1.modified {
          assert es[0].FetchData? && Generate(es[0].track, es[0].strategy, es[0].lookup).ok;
        } else {
          var k :| 0 <= k < |es[1..]| && es[1..][k].FetchData? && Generate(es[1..][k].track, es[1..][k].strategy, es[1..][k].lookup).ok;
          assert es[k + 1] == es[1..][k];
        }
      }
    }
  }

  /**
   The retry the failure message asks for: a fetch that misses, then the same
   fetch once the database holds every tile the track needs. The second click
   succeeds, marks the dialog modified and leaves one value per track point.
   Installing only the tile named after the first miss need not be enough: the
   run stops at the first miss, so a later point may need another tile.
   */
  lemma RetryAfterInstallingTile(d: SrtmDialog, t: TrackSegments, s: Strategy, before: Lookup, after: Lookup)
    requires TitleMatches(d) && !d.modified
    requires |t| > 0 && !AllLookupsFound(Flatten(t), s, before) && AllLookupsFound(Flatten(t), s, after)
    ensures var d1 := Run(d, [FetchData(t, s, before)]);
      && !d1.modified && d1.title == BaseTitle
    ensures var d2 := Run(d, [FetchData(t, s, before), FetchData(t, s, after)]);
      && d2.modified && d2.title == "*" + BaseTitle && |GetValues(d2)| == PointCount(t)
  {
    GenerateSucceedsIff(t, s, before);
    GenerateSucceedsIff(t, s, after);
    var first := Fetch(d, t, s, before);
    var second := Fetch(first.0, t, s, after);
    assert !first.1 && second.1;
    var one := [FetchData(t, s, before)];
    assert one[1..] == [];
    assert Run(d, one) == Run(first.0, []) == first.0;
    var two := [FetchData(t, s, before), FetchData(t, s, after)];
    assert two[1..] == [FetchData(t, s, after)];
    assert two[1..][1..] == [];
    assert Run(first.0, two[1..]) == Run(second.0, []) == second.0;
    assert Run(d, two) == second.0;
  }
}
