// The report of `compute_access_diff`: a sort by direction, connection, category
// and subject, a cut at `max_changes`, a summary of what was kept, and the notes.
module AccessReport {
  import opened Json
  import opened PolicyModel
  import opened StableSort
  import opened TupleOrder
  import opened Counting
  import opened AccessDiff

  // ------------------------------------------------------------- ranking

  function DirectionRank(d: Direction): nat {
    match d
    case Loosening => 0
    case Tightening => 1
    case Neutral => 2
  }

  function CategoryRank(c: Category): nat {
    match c
    case ConnectionVisibility => 0
    case MandatoryFilter => 1
    case PurposeAccess => 2
    case TableAccess => 3
    case ColumnAccess => 4
    case ColumnMasking => 5
    case Guardrail => 6
    case JoinGroup => 7
  }

  function ChangeKey(ch: Change): seq<Part> {
    [Rank(DirectionRank(ch.direction)), Name(ch.connection), Rank(CategoryRank(ch.category)), Name(Or(ch.subject, ""))]
  }

  predicate ChangeLe(a: Change, b: Change) {
    KeyLe(ChangeKey(a), ChangeKey(b))
  }

  lemma ChangeLeIsTotalPreorder()
    ensures TotalPreorder(ChangeLe)
  {
    ByKeyIsTotalPreorder(ChangeKey, ChangeLe);
  }

  // ------------------------------------------------------------ the report

  datatype Summary = Summary(total: nat, loosening: nat, tightening: nat, neutral: nat)

  datatype Report = Report(changes: seq<Change>, summary: Summary, notes: seq<Note>, truncated: bool)

  function Heading(d: Direction): Change -> bool {
    (ch: Change) => ch.direction == d
  }

  function CountOf(s: seq<Change>, d: Direction): nat {
    Count(s, Heading(d))
  }

  function Summarized(s: seq<Change>): Summary {
    Summary(|s|, CountOf(s, Loosening), CountOf(s, Tightening), CountOf(s, Neutral))
  }

  function Kept(all: seq<Change>, max: nat): seq<Change> {
    var sorted := Sort(all, ChangeLe);
    if |sorted| > max then sorted[..max] else sorted
  }

  function Dropped(all: seq<Change>, max: nat): seq<Change> {
    var sorted := Sort(all, ChangeLe);
    if |sorted| > max then sorted[max..] else []
  }

  /** A reason is listed once. */
  function Noted(notes: seq<Note>, n: Note, when: bool): seq<Note> {
    if when && n !in notes then notes + [n] else notes
  }

  function Finished(all: seq<Change>, notes: seq<Note>, max: nat): Report {
    Report(Kept(all, max), Summarized(Kept(all, max)), Noted(notes, Truncated, |all| > max), |all| > max)
  }

  // The three notes of a connection visible on both sides.
  function InnerNotes(notes: seq<Note>, c: string, b: Policy, a: Policy): seq<Note> {
    Noted(Noted(Noted(notes, TablesToggled(c), TablesNoted(b, a)),
                ColumnsToggled(c), ColumnsNoted(b, a)),
          WildcardMasks(c), MasksNoted(b, a))
  }

  predicate BothVisible(c: string, active: Context, candidate: Context, who: Option<string>) {
    && c in active.registry && c in candidate.registry
    && Visible(active.registry[c], Resolve(active.policies, c, who))
    && Visible(candidate.registry[c], Resolve(candidate.policies, c, who))
  }

  function ConnectionNotes(notes: seq<Note>, c: string, active: Context, candidate: Context, who: Option<string>): seq<Note> {
    if BothVisible(c, active, candidate, who)
    then InnerNotes(notes, c, Resolve(active.policies, c, who), Resolve(candidate.policies, c, who))
    else notes
  }

  function NotesOver(notes: seq<Note>, ids: seq<string>, active: Context, candidate: Context, who: Option<string>): seq<Note> {
    if ids == [] then notes
    else
      var n := |ids| - 1;
      ConnectionNotes(NotesOver(notes, ids[..n], active, candidate, who), ids[n], active, candidate, who)
  }

  predicate OverridesDiffer(active: Context, candidate: Context, who: Option<string>) {
    who.None? && active.policies.principals != candidate.policies.principals
  }

  ghost function AllNotes(active: Context, candidate: Context, who: Option<string>): seq<Note> {
    NotesOver(Noted([], OverridesChanged, OverridesDiffer(active, candidate, who)),
              Listing(active.registry.Keys + candidate.registry.Keys), active, candidate, who)
  }

  ghost function AccessReportOf(active: Context, candidate: Context, who: Option<string>, fields: seq<string>, max: nat): Report {
    Finished(AllChanges(active, candidate, who, fields), AllNotes(active, candidate, who), max)
  }

  // ------------------------------------------------ what the cut can lose

  lemma KeptAndDropped(all: seq<Change>, max: nat)
    ensures multiset(Kept(all, max)) + multiset(Dropped(all, max)) == multiset(all)
    ensures |Kept(all, max)| == if |all| > max then max else |all|
    ensures Dropped(all, max) == [] <==> |all| <= max
    ensures forall x, y :: x in Kept(all, max) && y in Dropped(all, max) ==> ChangeLe(x, y)
  {
    var sorted := Sort(all, ChangeLe);
    SortPermutes(all, ChangeLe);
    assert sorted == Kept(all, max) + Dropped(all, max);
    if |all| > max {
      ChangeLeIsTotalPreorder();
      TopK(all, ChangeLe, max);
    }
  }

  lemma {:induction false} CountsAddUp(s: seq<Change>)
    ensures CountOf(s, Loosening) + CountOf(s, Tightening) + CountOf(s, Neutral) == |s|
  {
    if s != [] {
      CountsAddUp(s[..|s| - 1]);
    }
  }

  // A loosening change is dropped only when every kept one is loosening.
  lemma LooseningDroppedLast(all: seq<Change>, max: nat, x: Change, y: Change)
    requires x in Kept(all, max) && y in Dropped(all, max) && y.direction.Loosening?
    ensures x.direction.Loosening?
  {
    KeptAndDropped(all, max);
    LeadingRank(ChangeKey(x), ChangeKey(y));
  }

  // Among changes of one direction the cut goes by connection, and inside a
  // connection by category, visibility first.
  lemma CutInOrder(all: seq<Change>, max: nat, x: Change, y: Change)
    requires x in Kept(all, max) && y in Dropped(all, max) && x.direction == y.direction
    ensures NameLe(x.connection, y.connection)
    ensures x.connection == y.connection ==> CategoryRank(x.category) <= CategoryRank(y.category)
    ensures x.connection == y.connection && x.category == y.category ==> NameLe(Or(x.subject, ""), Or(y.subject, ""))
  {
    KeptAndDropped(all, max);
    ChangeLeInOrder(x, y);
  }

  lemma ChangeLeInOrder(x: Change, y: Change)
    requires ChangeLe(x, y) && x.direction == y.direction
    ensures NameLe(x.connection, y.connection)
    ensures x.connection == y.connection ==> CategoryRank(x.category) <= CategoryRank(y.category)
    ensures x.connection == y.connection && x.category == y.category ==> NameLe(Or(x.subject, ""), Or(y.subject, ""))
  {
    NameLeReflexive(x.connection);
    NameLeReflexive(Or(x.subject, ""));
    KeyParts(ChangeKey(x), ChangeKey(y));
  }

  lemma KeyParts(a: seq<Part>, b: seq<Part>)
    requires |a| == |b| == 4 && KeyLe(a, b) && a[0] == b[0]
    ensures a[1] == b[1] || PartLe(a[1], b[1])
    ensures a[1] == b[1] ==> a[2] == b[2] || PartLe(a[2], b[2])
    ensures a[1] == b[1] && a[2] == b[2] ==> a[3] == b[3] || PartLe(a[3], b[3])
  {
    assert KeyLe(a[1..], b[1..]);
    if a[1] == b[1] {
      assert a[1..][1..] == a[2..] && b[1..][1..] == b[2..];
      assert KeyLe(a[2..], b[2..]);
      if a[2] == b[2] {
        assert a[2..][1..] == a[3..] && b[2..][1..] == b[3..];
        assert KeyLe(a[3..], b[3..]);
      }
    }
  }

  // The summary's loosening count is exact as long as it fits under the cut: it
  // is the smaller of the cut and the number of loosening changes there are.
  lemma LooseningCountSurvives(all: seq<Change>, max: nat)
    ensures var total := CountOf(all, Loosening);
            CountOf(Kept(all, max), Loosening) == if total > max then max else total
  {
    var kept, dropped := Kept(all, max), Dropped(all, max);
    KeptAndDropped(all, max);
    CountConcat(kept, dropped, Heading(Loosening));
    CountPermutes(kept + dropped, all, Heading(Loosening));
    CountAll(kept, Heading(Loosening));
    CountNone(dropped, Heading(Loosening));
    if CountOf(dropped, Loosening) > 0 {
      var y :| y in dropped && y.direction.Loosening?;
      forall x | x in kept ensures x.direction.Loosening? {
        LooseningDroppedLast(all, max, x, y);
      }
    }
  }

  // ----------------------------------------------------- which notes there are

  lemma NotedMembers(notes: seq<Note>, n: Note, when: bool, m: Note)
    ensures m in Noted(notes, n, when) <==> m in notes || (when && m == n)
  {
  }

  /** What a connection's policies add. */
  predicate NoteDue(n: Note, active: Context, candidate: Context, who: Option<string>) {
    match n
    case TablesToggled(c) =>
      BothVisible(c, active, candidate, who) && TablesNoted(Resolve(active.policies, c, who), Resolve(candidate.policies, c, who))
    case ColumnsToggled(c) =>
      BothVisible(c, active, candidate, who) && ColumnsNoted(Resolve(active.policies, c, who), Resolve(candidate.policies, c, who))
    case WildcardMasks(c) =>
      BothVisible(c, active, candidate, who) && MasksNoted(Resolve(active.policies, c, who), Resolve(candidate.policies, c, who))
    case OverridesChanged => OverridesDiffer(active, candidate, who)
    case Truncated => false
  }

  /** The connection a note is about; the two general notes are about none. */
  predicate NoteAbout(n: Note, c: string) {
    (n.TablesToggled? || n.ColumnsToggled? || n.WildcardMasks?) && n.connection == c
  }

  lemma ConnectionNotesMembers(notes: seq<Note>, c: string, active: Context, candidate: Context, who: Option<string>, m: Note)
    ensures m in ConnectionNotes(notes, c, active, candidate, who) <==>
            m in notes || (NoteAbout(m, c) && NoteDue(m, active, candidate, who))
  {
    if BothVisible(c, active, candidate, who) {
      var b, a := Resolve(active.policies, c, who), Resolve(candidate.policies, c, who);
      var n1 := Noted(notes, TablesToggled(c), TablesNoted(b, a));
      var n2 := Noted(n1, ColumnsToggled(c), ColumnsNoted(b, a));
      NotedMembers(notes, TablesToggled(c), TablesNoted(b, a), m);
      NotedMembers(n1, ColumnsToggled(c), ColumnsNoted(b, a), m);
      NotedMembers(n2, WildcardMasks(c), MasksNoted(b, a), m);
    }
  }

  lemma {:induction false} NotesOverMembers(notes: seq<Note>, ids: seq<string>, active: Context, candidate: Context, who: Option<string>, m: Note)
    ensures m in NotesOver(notes, ids, active, candidate, who) <==>
            m in notes || exists c :: c in ids && NoteAbout(m, c) && NoteDue(m, active, candidate, who)
  {
    if ids != [] {
      var n := |ids| - 1;
      NotesOverMembers(notes, ids[..n], active, candidate, who, m);
      ConnectionNotesMembers(NotesOver(notes, ids[..n], active, candidate, who), ids[n], active, candidate, who, m);
      assert ids == ids[..n] + [ids[n]];
    }
  }

  // A note is present exactly when it is due.
  lemma NotesExact(active: Context, candidate: Context, who: Option<string>, m: Note)
    ensures m in AllNotes(active, candidate, who) <==> NoteDue(m, active, candidate, who)
  {
    var ids := active.registry.Keys + candidate.registry.Keys;
    var first := Noted([], OverridesChanged, OverridesDiffer(active, candidate, who));
    ListingLists(ids);
    NotedMembers([], OverridesChanged, OverridesDiffer(active, candidate, who), m);
    NotesOverMembers(first, Listing(ids), active, candidate, who, m);
    if NoteDue(m, active, candidate, who) && !m.OverridesChanged? {
      assert m.connection in Listing(ids) && NoteAbout(m, m.connection);
    }
  }
}
