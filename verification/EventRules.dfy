/** The checks of the catalog's requests, field by field, apart from how they are computed. */
module EventRules {
  import opened Prelude
  import opened EventModel
  import opened EventHandlers
  import opened EventRuns
  import opened SalesTimeline

  /** Every wrong field is reported, and no other. */
  lemma FieldErrorsTell(p: EventPatch, creating: bool)
    ensures
      var wrong := FieldErrors(p, creating);
      && wrong <= {"name", "category_id", "starts_at", "ends_at", "capacity_total"}
      && ("name" in wrong <==> p.name == Some("") || (creating && p.name.None?))
      && ("category_id" in wrong <==> creating && p.theme.None?)
      && ("starts_at" in wrong <==> creating && p.startsAt.None?)
      && ("ends_at" in wrong <==> creating && p.endsAt.None?)
      && ("capacity_total" in wrong <==> p.capacity == Some(Some(0)))
  {
  }

  /** The merged dates are accepted exactly if they are in order and a given start is not too early. */
  lemma WriteErrorTells(e: Event, startGiven: bool, earliest: int)
    ensures
      var error, early := WriteError(e, startGiven, earliest), startGiven && e.startsAt < earliest;
      var crossed := e.salesStartsAt.Some? && e.salesEndsAt.Some? && e.salesEndsAt.value <= e.salesStartsAt.value;
      && (error.None? <==> !early && WindowOk(e))
      && (error == Some("starts_at") <==> early)
      && (error == Some("ends_at") <==> !early && e.endsAt <= e.startsAt)
      && (error == Some("sales_starts_at") <==>
            !early && e.startsAt < e.endsAt && !crossed && e.salesStartsAt.Some? && e.startsAt <= e.salesStartsAt.value)
      && (error.Some? ==> error.value in {"starts_at", "ends_at", "sales_starts_at", "sales_ends_at"})
  {
  }

  /** A draft can be published exactly if it has a place, a capacity that holds its quotas, tickets and a start in time. */
  lemma PublishErrorsTell(s: EventState, earliest: int)
    ensures
      var wrong := PublishErrors(s, earliest);
      && wrong <= {"venue", "capacity_total", "starts_at", "ticket_categories", "quota"}
      && ("venue" in wrong <==> Blank(s.event.venue))
      && ("capacity_total" in wrong <==> s.event.capacity.None?)
      && ("starts_at" in wrong <==> s.event.startsAt < earliest)
      && ("ticket_categories" in wrong <==> s.categories == [])
      && ("quota" in wrong <==> s.event.capacity.Some? && QuotaTotal(s.categories) > s.event.capacity.value)
  {
  }

  predicate SameLetter(c: char, d: char) {
    c == d || ('A' <= c <= 'Z' && d as int == c as int + 32) || ('A' <= d <= 'Z' && c as int == d as int + 32)
  }

  lemma LowerAt(s: string, i: nat)
    requires i < |s|
    ensures Lower(s)[i] as int == if 'A' <= s[i] <= 'Z' then s[i] as int + 32 else s[i] as int
  {
  }

  /** Two names clash exactly if they differ in nothing but the case of letters. */
  lemma NamesClashExactly(a: string, b: string)
    ensures Lower(a) == Lower(b) <==> |a| == |b| && forall i :: 0 <= i < |a| ==> SameLetter(a[i], b[i])
  {
    if |a| == |b| {
      forall i | 0 <= i < |a|
        ensures Lower(a)[i] == Lower(b)[i] <==> SameLetter(a[i], b[i])
      {
        LowerAt(a, i);
        LowerAt(b, i);
      }
    }
  }
}
