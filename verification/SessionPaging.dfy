/**
 The session list.  Its cursor clause compares a row in one direction throughout, while
 the order is mixed, so a walk is complete exactly when no two sessions end together.
 */
module SessionPaging {
  import opened Wrappers
  import opened Strings
  import opened Json
  import opened Ordering
  import opened Paging
  import Base64Url
  import UsagePaging
  import Utf8

  /** One aggregated session; its actor parts can be NULL. */
  datatype Session = Session(lastSeen: int, actorType: Option<string>, actorKey: Option<string>)

  /** Text order, NULLs last. */
  predicate TextBefore(a: Option<string>, b: Option<string>) {
    a.Some? && (b.None? || Less(a.value, b.value))
  }

  /** ORDER BY last_seen DESC, actor_type, actor_key */
  predicate Before(a: Session, b: Session) {
    b.lastSeen < a.lastSeen
    || (b.lastSeen == a.lastSeen
        && (TextBefore(a.actorType, b.actorType)
            || (a.actorType == b.actorType && TextBefore(a.actorKey, b.actorKey))))
  }

  datatype Cursor = Cursor(ts: int, actorType: string, actorKey: string)

  function OrEmpty(s: Option<string>): string {
    if s.Some? then s.value else ""
  }

  function CursorOf(x: Session): Cursor {
    Cursor(x.lastSeen, OrEmpty(x.actorType), OrEmpty(x.actorKey))
  }

  /** `(last_seen, actor_type, actor_key) < (...)`: left to right; a NULL that decides makes it
      not true. */
  predicate RowLess(x: Session, c: Cursor) {
    x.lastSeen < c.ts
    || (x.lastSeen == c.ts && x.actorType.Some?
        && (Less(x.actorType.value, c.actorType)
            || (x.actorType.value == c.actorType && x.actorKey.Some? && Less(x.actorKey.value, c.actorKey))))
  }

  function Payload(py: UsagePaging.Python, c: Cursor): Members {
    Member("ts", Str(py.iso(c.ts)),
    Member("actor_type", Str(c.actorType),
    Member("actor_key", Str(c.actorKey), NoMembers)))
  }

  function EncodeCursor(py: UsagePaging.Python, c: Cursor): string {
    Base64Url.Encode(Utf8.Encode(Text(Obj(Payload(py, c)))))
  }

  function DecodeCursor(py: UsagePaging.Python, s: string): Option<Cursor> {
    match Base64Url.Decode(s)
    case None => None
    case Some(raw) =>
      match Utf8.Decode(raw)
      case None => None
      case Some(text) =>
        match Loads(text)
        case Some(Obj(ms)) =>
          ReadCursor(py, UsagePaging.Field(ms, "ts"), UsagePaging.Field(ms, "actor_type"),
                     UsagePaging.Field(ms, "actor_key"))
        case _ => None
  }

  function ReadCursor(py: UsagePaging.Python, ts: Option<Json>, t: Option<Json>, k: Option<Json>): Option<Cursor> {
    match (ts, t, k)
    case (Some(Str(iso)), Some(Str(actorType)), Some(Str(actorKey))) =>
      (match py.fromIso(iso) case None => None case Some(at) => Some(Cursor(at, actorType, actorKey)))
    case _ => None
  }

  lemma CursorRoundTrip(py: UsagePaging.Python, c: Cursor)
    requires UsagePaging.Faithful(py)
    ensures DecodeCursor(py, EncodeCursor(py, c)) == Some(c)
  {
    var ms := Payload(py, c);
    Base64Url.RoundTrip(Utf8.Encode(Text(Obj(ms))));
    Utf8.RoundTrip(Text(Obj(ms)));
    LoadsInvertsText(Obj(ms));
    PayloadFields(py, c);
  }

  lemma PayloadFields(py: UsagePaging.Python, c: Cursor)
    ensures UsagePaging.Field(Payload(py, c), "ts") == Some(Str(py.iso(c.ts)))
    ensures UsagePaging.Field(Payload(py, c), "actor_type") == Some(Str(c.actorType))
    ensures UsagePaging.Field(Payload(py, c), "actor_key") == Some(Str(c.actorKey))
  {
    var second := Payload(py, c).rest;
    var third := second.rest;
    assert UsagePaging.Field(third, "ts") == None && UsagePaging.Field(third, "actor_type") == None
           && UsagePaging.Field(third, "actor_key") == Some(Str(c.actorKey));
    assert UsagePaging.Field(second, "ts") == None && UsagePaging.Field(second, "actor_type") == Some(Str(c.actorType))
           && UsagePaging.Field(second, "actor_key") == Some(Str(c.actorKey));
  }

  // ---- The order, and what the cursor clause makes of it ----

  lemma TextBeforeIsTotal(a: Option<string>, b: Option<string>)
    ensures !(TextBefore(a, b) && TextBefore(b, a)) && !TextBefore(a, a)
    ensures TextBefore(a, b) || a == b || TextBefore(b, a)
  {
    if a.Some? && b.Some? {
      LessIsStrict(a.value, b.value);
      LessIsTotal(a.value, b.value);
    }
    if a.Some? {
      LessIsStrict(a.value, a.value);
    }
  }

  lemma TextBeforeIsTransitive(a: Option<string>, b: Option<string>, c: Option<string>)
    requires TextBefore(a, b) && TextBefore(b, c)
    ensures TextBefore(a, c)
  {
    if c.Some? {
      LessIsTransitive(a.value, b.value, c.value);
    }
  }

  lemma BeforeIsTotal(a: Session, b: Session)
    ensures !(Before(a, b) && Before(b, a)) && !Before(a, a)
    ensures a == b || Before(a, b) || Before(b, a)
  {
    TextBeforeIsTotal(a.actorType, b.actorType);
    TextBeforeIsTotal(a.actorKey, b.actorKey);
    TextBeforeIsTotal(a.actorType, a.actorType);
    TextBeforeIsTotal(a.actorKey, a.actorKey);
  }

  lemma BeforeIsTransitive()
    ensures Transitive(Before)
  {
    forall a, b, c ensures Chains(Before, a, b, c) {
      if Before(a, b) && Before(b, c) && a.lastSeen == b.lastSeen == c.lastSeen {
        if TextBefore(a.actorType, b.actorType) && TextBefore(b.actorType, c.actorType) {
          TextBeforeIsTransitive(a.actorType, b.actorType, c.actorType);
        }
        if TextBefore(a.actorKey, b.actorKey) && TextBefore(b.actorKey, c.actorKey) {
          TextBeforeIsTransitive(a.actorKey, b.actorKey, c.actorKey);
        }
      }
    }
  }

  /** Among sessions that end together, the clause lets through none that come later. */
  lemma TiesAreNotResumed(a: Session, b: Session)
    requires Before(a, b)
    ensures RowLess(b, CursorOf(a)) <==> b.lastSeen < a.lastSeen
  {
    if a.actorType.Some? && b.actorType.Some? {
      LessIsStrict(a.actorType.value, b.actorType.value);
      LessIsStrict(a.actorType.value, a.actorType.value);
    }
    if a.actorKey.Some? && b.actorKey.Some? {
      LessIsStrict(a.actorKey.value, b.actorKey.value);
    }
  }

  /** But it lets earlier ones through again: all of them when the cursor's session has both parts,
      those of another actor type when its key is NULL, none when its type is NULL (an empty one
      aside). */
  lemma TiesComeBack(a: Session, b: Session)
    requires Before(a, b) && a.lastSeen == b.lastSeen
    ensures b.actorType.Some? && b.actorKey.Some? ==> RowLess(a, CursorOf(b))
    ensures b.actorType.Some? && b.actorKey == None ==> (RowLess(a, CursorOf(b)) <==> a.actorType != b.actorType)
    ensures b.actorType == None && a.actorType != Some("") ==> !RowLess(a, CursorOf(b))
  {
    if b.actorType.Some? && b.actorKey == None && a.actorType.Some? {
      LessIsStrict(a.actorType.value, b.actorType.value);
      LessIsStrict(a.actorType.value, a.actorType.value);
    }
  }

  lemma RowLessIsTransitive(c: Cursor, a: Session, b: Session)
    requires RowLess(a, c) && RowLess(b, CursorOf(a))
    ensures RowLess(b, c)
  {
    if b.lastSeen == a.lastSeen == c.ts {
      if Less(b.actorType.value, CursorOf(a).actorType) && Less(a.actorType.value, c.actorType) {
        LessIsTransitive(b.actorType.value, a.actorType.value, c.actorType);
      }
      if b.actorKey.Some? && a.actorKey.Some?
         && Less(b.actorKey.value, a.actorKey.value) && Less(a.actorKey.value, c.actorKey) {
        LessIsTransitive(b.actorKey.value, a.actorKey.value, c.actorKey);
      }
    }
  }

  lemma NotAfterItself(a: Session)
    ensures !RowLess(a, CursorOf(a))
  {
    if a.actorType.Some? {
      LessIsStrict(a.actorType.value, a.actorType.value);
    }
    if a.actorKey.Some? {
      LessIsStrict(a.actorKey.value, a.actorKey.value);
    }
  }

  // ---- Walking the list ----

  predicate After(py: UsagePaging.Python, s: string, x: Session) {
    var c := DecodeCursor(py, s);
    c.Some? && RowLess(x, c.value)
  }

  function AfterIn(py: UsagePaging.Python): (string, Session) -> bool {
    (s: string, x: Session) => After(py, s, x)
  }

  function Key(py: UsagePaging.Python): Session -> string {
    (x: Session) => EncodeCursor(py, CursorOf(x))
  }

  function Database(py: UsagePaging.Python, sessions: seq<Session>): Source<Session, string> {
    (c: Option<string>) => Rows(Sort(sessions, Before), AfterIn(py), c)
  }

  ghost predicate AllDiffer(xs: seq<Session>) {
    forall i, j :: 0 <= i < j < |xs| ==> xs[i] != xs[j]
  }

  ghost predicate DistinctTimes(xs: seq<Session>) {
    forall i, j :: 0 <= i < j < |xs| ==> xs[i].lastSeen != xs[j].lastSeen
  }

  lemma CursorsMoveForward(py: UsagePaging.Python)
    requires UsagePaging.Faithful(py)
    ensures Forward(AfterIn(py), Key(py))
  {
    forall s: string, a: Session, b: Session ensures Onward(AfterIn(py), Key(py), s, a, b) {
      CursorRoundTrip(py, CursorOf(a));
      NotAfterItself(a);
      if After(py, s, a) && RowLess(b, CursorOf(a)) {
        RowLessIsTransitive(DecodeCursor(py, s).value, a, b);
      }
    }
  }

  lemma SortedSessions(sessions: seq<Session>)
    requires AllDiffer(sessions)
    ensures Ordered(Sort(sessions, Before), Before)
  {
    forall i, j | 0 <= i < j < |sessions| ensures Before(sessions[i], sessions[j]) || Before(sessions[j], sessions[i]) {
      BeforeIsTotal(sessions[i], sessions[j]);
    }
    BeforeIsTransitive();
    SortIsSorted(sessions, Before);
  }

  lemma DistinctFollows(py: UsagePaging.Python, xs: seq<Session>, i: nat)
    requires UsagePaging.Faithful(py) && Ordered(xs, Before) && DistinctTimes(xs) && i < |xs|
    ensures FollowsAt((c: Option<string>) => Rows(xs, AfterIn(py), c), Key(py), xs, i)
  {
    CursorRoundTrip(py, CursorOf(xs[i]));
    forall j | 0 <= j < |xs| ensures After(py, EncodeCursor(py, CursorOf(xs[i])), xs[j]) <==> i < j {
      if i < j {
        TiesAreNotResumed(xs[i], xs[j]);
      } else if j < i {
        assert Before(xs[j], xs[i]);
      } else {
        NotAfterItself(xs[i]);
      }
    }
    RowsAfter(xs, AfterIn(py), Key(py), i);
  }

  /** No two of the rows up to `k` end together. */
  ghost predicate NoTieBefore(xs: seq<Session>, k: nat) {
    forall i :: 0 <= i < k && i + 1 < |xs| ==> xs[i + 1].lastSeen < xs[i].lastSeen
  }

  lemma FirstTie(xs: seq<Session>, j: nat) returns (k: nat)
    requires Ordered(xs, Before) && j + 1 < |xs| && xs[j].lastSeen == xs[j + 1].lastSeen
    ensures k + 1 < |xs| && xs[k].lastSeen == xs[k + 1].lastSeen && NoTieBefore(xs, k)
  {
    k := 0;
    while xs[k].lastSeen != xs[k + 1].lastSeen
      invariant k <= j && NoTieBefore(xs, k)
      decreases j - k
    {
      assert Before(xs[k], xs[k + 1]);
      k := k + 1;
    }
  }

  lemma TieIsAdjacent(xs: seq<Session>, i: nat, j: nat)
    requires Ordered(xs, Before) && i < j < |xs| && xs[i].lastSeen == xs[j].lastSeen
    ensures xs[i].lastSeen == xs[i + 1].lastSeen
  {
    assert Before(xs[i], xs[i + 1]);
    assert i + 1 < j ==> Before(xs[i + 1], xs[j]);
  }

  lemma StrictBeforeTie(xs: seq<Session>, k: nat, i: nat, j: nat)
    requires Ordered(xs, Before) && NoTieBefore(xs, k) && i < j < |xs| && i < k
    ensures xs[j].lastSeen < xs[i].lastSeen
  {
    assert i + 1 < j ==> Before(xs[i + 1], xs[j]);
  }

  lemma FollowsBeforeTie(py: UsagePaging.Python, xs: seq<Session>, k: nat, i: nat)
    requires UsagePaging.Faithful(py) && Ordered(xs, Before) && NoTieBefore(xs, k) && i < k && i < |xs|
    ensures FollowsAt((c: Option<string>) => Rows(xs, AfterIn(py), c), Key(py), xs, i)
  {
    CursorRoundTrip(py, CursorOf(xs[i]));
    forall j | 0 <= j < |xs| ensures After(py, EncodeCursor(py, CursorOf(xs[i])), xs[j]) <==> i < j {
      if i < j {
        StrictBeforeTie(xs, k, i, j);
      } else if j < i {
        StrictBeforeTie(xs, k, j, i);
      } else {
        NotAfterItself(xs[i]);
      }
    }
    RowsAfter(xs, AfterIn(py), Key(py), i);
  }

  lemma TieIsLost(py: UsagePaging.Python, xs: seq<Session>, k: nat)
    requires UsagePaging.Faithful(py) && Ordered(xs, Before) && k + 1 < |xs| && xs[k].lastSeen == xs[k + 1].lastSeen
    ensures LosesNext((c: Option<string>) => Rows(xs, AfterIn(py), c), Key(py), xs, k)
  {
    CursorRoundTrip(py, CursorOf(xs[k]));
    TiesAreNotResumed(xs[k], xs[k + 1]);
    var c := Key(py)(xs[k]);
    if Rows(xs, AfterIn(py), Some(c)) != [] {
      RowsPass(xs, AfterIn(py), c, 0);
    }
  }

  ghost predicate Complete(py: UsagePaging.Python, sessions: seq<Session>, limits: nat -> nat)
    requires Shrinks(Database(py, sessions), Key(py)) && Positive(limits)
  {
    Walk(Database(py, sessions), Key(py), None, limits, 0) == Sort(sessions, Before)
  }

  lemma WalksEnd(py: UsagePaging.Python, sessions: seq<Session>)
    requires UsagePaging.Faithful(py)
    ensures Shrinks(Database(py, sessions), Key(py))
  {
    CursorsMoveForward(py);
    ForwardShrinks(Sort(sessions, Before), AfterIn(py), Key(py));
  }

  /** When no two sessions end together, every walk, with any limits, lists each once, in order. */
  lemma DistinctTimesAreComplete(py: UsagePaging.Python, sessions: seq<Session>, limits: nat -> nat)
    requires UsagePaging.Faithful(py) && AllDiffer(sessions) && Positive(limits)
    requires DistinctTimes(Sort(sessions, Before))
    ensures Shrinks(Database(py, sessions), Key(py)) && Complete(py, sessions, limits)
  {
    WalksEnd(py, sessions);
    SortedSessions(sessions);
    var xs := Sort(sessions, Before);
    forall i | 0 <= i < |xs| ensures FollowsAt(Database(py, sessions), Key(py), xs, i) {
      DistinctFollows(py, xs, i);
    }
    WalkIsWhole(Database(py, sessions), Key(py), limits);
  }

  /** What the endpoint accepts as `limit`. */
  ghost predicate Receivable(limits: nat -> nat) {
    forall n :: 1 <= limits(n) <= 1000
  }

  /** When two do, a walk with pages of one session loses one. */
  lemma TiesAreIncomplete(py: UsagePaging.Python, sessions: seq<Session>) returns (limits: nat -> nat)
    requires UsagePaging.Faithful(py) && AllDiffer(sessions)
    requires !DistinctTimes(Sort(sessions, Before))
    ensures Receivable(limits)
    ensures Shrinks(Database(py, sessions), Key(py)) && Positive(limits) && !Complete(py, sessions, limits)
  {
    WalksEnd(py, sessions);
    SortedSessions(sessions);
    var xs := Sort(sessions, Before);
    var i, j :| 0 <= i < j < |xs| && xs[i].lastSeen == xs[j].lastSeen;
    TieIsAdjacent(xs, i, j);
    var k := FirstTie(xs, i);
    TieIsLost(py, xs, k);
    forall m | 0 <= m < k ensures FollowsAt(Database(py, sessions), Key(py), xs, m) {
      FollowsBeforeTie(py, xs, k, m);
    }
    WalkLosesRow(Database(py, sessions), Key(py), None, xs, k, 0);
    limits := OneByOne();
  }

  /** Over all the limits the endpoint accepts, every walk lists each session once, in order, if
      and only if no two sessions end together. */
  lemma CompleteIffDistinct(py: UsagePaging.Python, sessions: seq<Session>)
    requires UsagePaging.Faithful(py) && AllDiffer(sessions)
    ensures Shrinks(Database(py, sessions), Key(py))
    ensures (forall limits: nat -> nat :: Receivable(limits) && Positive(limits) ==> Complete(py, sessions, limits))
       <==> DistinctTimes(Sort(sessions, Before))
  {
    WalksEnd(py, sessions);
    if DistinctTimes(Sort(sessions, Before)) {
      forall limits: nat -> nat | Receivable(limits) && Positive(limits) ensures Complete(py, sessions, limits) {
        DistinctTimesAreComplete(py, sessions, limits);
      }
    } else {
      var limits := TiesAreIncomplete(py, sessions);
    }
  }
}
