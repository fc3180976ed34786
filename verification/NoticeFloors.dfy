/** The notices of core/hitl.py as core/notifications.py receives them: what becomes of a channel's
    severity floor. */
module NoticeFloors {
  import opened Wrappers
  import opened Notifications
  import Incidents

  /** The fan-out that a notice starts. */
  function FanOut(notice: Incidents.Notice, ds: seq<Dispatch>): Change {
    Notify(ds, Incidents.SummaryOf(notice).severity)
  }

  predicate DistinctIds(ds: seq<Dispatch>) {
    forall i, j | 0 <= i < j < |ds| :: ds[i].id != ds[j].id
  }

  /** Every channel below its floor would have nothing to do anyway: it has no sender, is readable and is
      outside its quiet hours. */
  predicate FloorsIdle(ds: seq<Dispatch>, severity: Severity) {
    forall i | 0 <= i < |ds| && BelowFloor(ds[i].channel, Some(severity)) ::
      !InQuietHours(ds[i].channel.quiet, ds[i].local) && ds[i].readable && ds[i].channel.kind.NoSender?
  }

  lemma OwedIs(ds: seq<Dispatch>, severity: Option<Severity>, i: nat)
    requires DistinctIds(ds) && i < |ds|
    ensures ds[i].id in Owed(Notify(ds, severity)) <==> !Ignored(ds[i], severity)
  {
  }

  lemma OwedWithoutSeverity(ds: seq<Dispatch>, severity: Severity)
    requires DistinctIds(ds)
    ensures Owed(Notify(ds, None)) == Owed(Notify(ds, Some(severity))) <==> FloorsIdle(ds, severity)
  {
    forall i | 0 <= i < |ds|
      ensures ds[i].id in Owed(Notify(ds, None)) <==> !Ignored(ds[i], None)
      ensures ds[i].id in Owed(Notify(ds, Some(severity))) <==> !Ignored(ds[i], Some(severity))
    {
      OwedIs(ds, None, i);
      OwedIs(ds, Some(severity), i);
    }
  }

  /** A floor is documented to keep incidents below it from its channel. Creating an incident fires one
      notice, whose fan-out owes exactly the notifications that the incident's severity calls for exactly
      when no floor has anything to hold back. */
  lemma FloorsHoldExactlyWhen(
      db: Incidents.Db, id: Incidents.Id, run: Incidents.Id, severity: Severity, options: seq<nat>, tokens: nat,
      ds: seq<Dispatch>)
    requires id !in db.incidents && DistinctIds(ds)
    ensures var after := Incidents.WithIncident(db, id, run, severity, options, tokens);
            && after.incidents[id].severity == severity && |after.notices| == |db.notices| + 1
            && (Owed(FanOut(after.notices[|db.notices|], ds)) == Owed(Notify(ds, Some(after.incidents[id].severity)))
                <==> FloorsIdle(ds, severity))
  {
    OwedWithoutSeverity(ds, severity);
  }

  /** A PagerDuty channel for critical incidents only is paged for a low one. */
  lemma LowIncidentPages(db: Incidents.Db, id: Incidents.Id, run: Incidents.Id)
    requires id !in db.incidents
    ensures var after := Incidents.WithIncident(db, id, run, Low, [], 0);
            var ds := [Dispatch(9, Channel(0, PagerDuty, Some(Critical), None), None, true, true, 0)];
            var none := Tables(map[], map[], {});
            && |after.notices| == |db.notices| + 1 && after.incidents[id].severity == Low
            && Changed(none, FanOut(after.notices[|db.notices|], ds)).delivered == {9}
            && Changed(none, Notify(ds, Some(Low))) == none
  {
    var d := Dispatch(9, Channel(0, PagerDuty, Some(Critical), None), None, true, true, 0);
    assert [d][..0] == [];
  }
}
