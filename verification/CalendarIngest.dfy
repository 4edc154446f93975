/** Pulling remote events into the planned-actions table. */
module CalendarIngest {
  import opened Options
  import opened CalendarModel

  const DAY_MS := 86_400_000

  type CalendarId = string

  /** One event as the remote side lists it, with the calendar it sits in. */
  datatype Listed = Listed(calendar: CalendarId, calendarSummary: Option<string>, id: EventId, event: RemoteEvent)

  predicate ShouldSkip(l: Listed) {
    l.id == "" || Tagged(l.event)
  }

  function ExternalId(calendar: CalendarId, id: EventId): string {
    calendar + ":" + id
  }

  function NormalizeStart(e: RemoteEvent): Option<int> {
    match e.start
    case DateTime(ms) => Some(ms)
    case AllDay(day) => Some(day * DAY_MS)
    case Unset => None
  }

  function NormalizeEnd(e: RemoteEvent, fallbackStart: Option<int>): Option<int> {
    match e.end
    case DateTime(ms) => Some(ms)
    case AllDay(day) => Some(day * DAY_MS)
    case Unset => fallbackStart
  }

  function EventStatus(e: RemoteEvent): Status {
    if e.status == "cancelled" then Cancelled else if NormalizeStart(e).Some? then Scheduled else Proposed
  }

  /** JavaScript's `text || fallback`: the empty text counts as absent. */
  function NonEmpty(text: Option<string>): Option<string> {
    if text == Some("") then None else text
  }

  function ImportMetadata(l: Listed): map<string, string> {
    l.event.details + map[
      "source" := "google-calendar-import",
      "calendar_id" := l.calendar,
      "calendar_summary" := l.calendarSummary.GetOr("null"),
      "html_link" := l.event.link.GetOr("null"),
      "status" := l.event.status,
      "all_day" := if l.event.start.AllDay? then "true" else "false"]
  }

  /** The row as the import leaves it; a row already there keeps its effort and old metadata keys. */
  function ImportedRow(existing: Option<Action>, l: Listed): Action {
    var start := NormalizeStart(l.event);
    Action(IMPORTED, None, NonEmpty(l.event.summary).GetOr("(Untitled event)"), NonEmpty(l.event.description),
           EventStatus(l.event), start, NormalizeEnd(l.event, start),
           if existing.Some? then existing.value.effortMinutes else None,
           Some(GOOGLE), Some(ExternalId(l.calendar, l.id)),
           (if existing.Some? then existing.value.metadata else map[]) + ImportMetadata(l))
  }

  predicate Stands(a: Action, l: Listed) {
    a.provider == Some(GOOGLE) && a.externalId == Some(ExternalId(l.calendar, l.id))
  }

  /** The row the lookup answers with: one that stands for the event, or none if none does. */
  predicate Answers(actions: Actions, l: Listed, hit: Option<ActionId>) {
    match hit
    case Some(id) => id in actions && Stands(actions[id], l)
    case None => forall id :: id in actions ==> !Stands(actions[id], l)
  }

  function Import(actions: Actions, l: Listed, hit: Option<ActionId>, newId: ActionId): Actions {
    if ShouldSkip(l) then actions
    else match hit
      case Some(id) => actions[id := ImportedRow(if id in actions then Some(actions[id]) else None, l)]
      case None => actions[newId := ImportedRow(None, l)]
  }

  function ImportUpto(actions: Actions, listing: seq<Listed>, hits: seq<Option<ActionId>>, newIds: seq<ActionId>,
                      n: nat): Actions
    requires n <= |listing| && n <= |hits| && |listing| <= |newIds|
  {
    if n == 0 then actions
    else Import(ImportUpto(actions, listing, hits, newIds, n - 1), listing[n - 1], hits[n - 1], newIds[n - 1])
  }

  /** Every lookup of the run was answered from the table as it stood at that turn. */
  predicate AnswersUpto(actions: Actions, listing: seq<Listed>, hits: seq<Option<ActionId>>, newIds: seq<ActionId>,
                        n: nat)
    requires n <= |listing| && n <= |hits| && |listing| <= |newIds|
  {
    n == 0 ||
    (AnswersUpto(actions, listing, hits, newIds, n - 1)
     && (ShouldSkip(listing[n - 1])
           || Answers(ImportUpto(actions, listing, hits, newIds, n - 1), listing[n - 1], hits[n - 1])))
  }

  lemma {:induction false} ImportPrefix(actions: Actions, listing: seq<Listed>, h1: seq<Option<ActionId>>,
                                        h2: seq<Option<ActionId>>, newIds: seq<ActionId>, n: nat)
    requires n <= |listing| <= |newIds| && n <= |h1| && n <= |h2| && h1[..n] == h2[..n]
    ensures ImportUpto(actions, listing, h1, newIds, n) == ImportUpto(actions, listing, h2, newIds, n)
    ensures AnswersUpto(actions, listing, h1, newIds, n) == AnswersUpto(actions, listing, h2, newIds, n)
  {
    hide Import, Answers;
    if n > 0 {
      assert h1[..n - 1] == h1[..n][..n - 1] && h2[..n - 1] == h2[..n][..n - 1];
      ImportPrefix(actions, listing, h1, h2, newIds, n - 1);
      assert h1[n - 1] == h1[..n][n - 1] && h2[n - 1] == h2[..n][n - 1];
    }
  }

  function Importable(listing: seq<Listed>): set<int> {
    set i | 0 <= i < |listing| && !ShouldSkip(listing[i])
  }

  lemma OneMoreImportable(listing: seq<Listed>, k: nat)
    requires k < |listing|
    ensures |Importable(listing[..k + 1])| == |Importable(listing[..k])| + if ShouldSkip(listing[k]) then 0 else 1
  {
    hide ShouldSkip;
    assert Importable(listing[..k + 1]) == Importable(listing[..k]) + if ShouldSkip(listing[k]) then {} else {k};
  }

  class ImportJob {
    var actions: Actions
    var imported: nat
    var skipped: nat

    constructor (actions: Actions)
      ensures this.actions == actions && imported == 0 && skipped == 0
    {
      this.actions, imported, skipped := actions, 0, 0;
    }

    method Lookup(l: Listed) returns (hit: Option<ActionId>)
      ensures Answers(actions, l, hit)
    {
      var open := actions.Keys;
      while open != {}
        invariant open <= actions.Keys
        invariant forall id :: id in actions && id !in open ==> !Stands(actions[id], l)
        decreases open
      {
        var id :| id in open;
        if Stands(actions[id], l) { return Some(id); }
        open := open - {id};
      }
      return None;
    }

    /** `newIds` are the ids the database would generate for the rows inserted. */
    method Run(listing: seq<Listed>, newIds: seq<ActionId>) returns (hits: seq<Option<ActionId>>)
      requires |listing| <= |newIds|
      modifies this
      ensures |hits| == |listing|
      ensures AnswersUpto(old(actions), listing, hits, newIds, |listing|)
      ensures actions == ImportUpto(old(actions), listing, hits, newIds, |listing|)
      ensures imported == old(imported) + |Importable(listing)|
      ensures imported + skipped == old(imported + skipped) + |listing|
    {
      hide Import, Answers;
      hits := [];
      for k := 0 to |listing|
        invariant |hits| == k
        invariant AnswersUpto(old(actions), listing, hits, newIds, k)
        invariant actions == ImportUpto(old(actions), listing, hits, newIds, k)
        invariant imported == old(imported) + |Importable(listing[..k])|
        invariant imported + skipped == old(imported + skipped) + k
      {
        OneMoreImportable(listing, k);
        var l := listing[k];
        var hit: Option<ActionId> := None;
        if !ShouldSkip(l) { hit := Lookup(l); }
        ImportPrefix(old(actions), listing, hits, hits + [hit], newIds, k);
        hits := hits + [hit];
        actions := Import(actions, l, hit, newIds[k]);
        if ShouldSkip(l) { skipped := skipped + 1; } else { imported := imported + 1; }
      }
      assert listing[..|listing|] == listing;
    }
  }

  // ---- External ids ----

  predicate NoColon(s: string) {
    forall i :: 0 <= i < |s| ==> s[i] != ':'
  }

  /** If one text splits at two colons, what follows the first of them holds the second. */
  lemma LaterColon(c1: CalendarId, e1: EventId, c2: CalendarId, e2: EventId)
    requires ExternalId(c1, e1) == ExternalId(c2, e2)
    ensures |c1| < |c2| ==> !NoColon(e1)
  {
    if |c1| < |c2| {
      assert ExternalId(c2, e2)[|c2|] == ':';
      assert ExternalId(c1, e1)[|c2|] == e1[|c2| - |c1| - 1];
    }
  }

  /** Event ids without a colon make external ids unambiguous, whatever the calendar ids. */
  lemma ExternalIdInjective(c1: CalendarId, e1: EventId, c2: CalendarId, e2: EventId)
    requires NoColon(e1) && NoColon(e2) && ExternalId(c1, e1) == ExternalId(c2, e2)
    ensures c1 == c2 && e1 == e2
  {
    LaterColon(c1, e1, c2, e2);
    LaterColon(c2, e2, c1, e1);
    var x := ExternalId(c1, e1);
    assert c1 == x[..|c1|] && c2 == x[..|c2|];
    assert e1 == x[|c1| + 1..] && e2 == x[|c2| + 1..];
  }

  lemma ExternalIdHasColon(c: CalendarId, e: EventId)
    ensures !NoColon(ExternalId(c, e))
  {
    assert ExternalId(c, e)[|c|] == ':';
  }

  /** Importing the same event again changes nothing in its row. */
  lemma ImportIdempotent(existing: Option<Action>, l: Listed)
    ensures ImportedRow(Some(ImportedRow(existing, l)), l) == ImportedRow(existing, l)
  {
    var before := if existing.Some? then existing.value.metadata else map[];
    assert before + ImportMetadata(l) + ImportMetadata(l) == before + ImportMetadata(l);
  }
}
