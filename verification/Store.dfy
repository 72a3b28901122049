/** `InMemoryTaskStore` and its cursor pagination (src/server/store.ts, src/server/utils.ts). */
module Store {
  import opened Base
  import opened Protocol

  /** The parts of a `ServerCallContext` that scope data. */
  datatype Context = Context(tenant: Option<Text>, userName: Option<Text>)

  datatype Scope = Scope(tenant: Text, owner: Text)

  function TenantOf(c: Context): Text { if c.tenant.Some? then c.tenant.value else [] }

  /** `resolveUserScope`: absent and empty names share one owner. */
  function OwnerOf(c: Context): Text {
    if c.userName.Some? && c.userName.value != [] then c.userName.value else Lit("unknown")
  }

  function ScopeOf(c: Context): Scope { Scope(TenantOf(c), OwnerOf(c)) }

  /** Equal, a missing name being an empty one. */
  predicate SameOrBothEmpty(a: Option<Text>, b: Option<Text>) {
    a == b || ((a == None || a == Some([])) && (b == None || b == Some([])))
  }

  /** A named user owns their tasks; those of callers without a name, or with an empty one, belong
      to "unknown". Two callers are one default scope exactly when they are of one tenant and one
      user, or, in one tenant, when neither has a name that tells them from "unknown". */
  lemma DefaultScopeIs(a: Context, b: Context)
    ensures a.userName.Some? && a.userName.value != [] ==> OwnerOf(a) == a.userName.value
    ensures a.userName == None || a.userName == Some([]) ==> OwnerOf(a) == Lit("unknown")
    ensures ScopeOf(a) == ScopeOf(b) <==>
      SameOrBothEmpty(a.tenant, b.tenant) &&
      (SameOrBothEmpty(a.userName, b.userName) || (Unnamed(a.userName) && Unnamed(b.userName)))
  {}

  predicate Unnamed(n: Option<Text>) { n == None || n == Some([]) || n == Some(Lit("unknown")) }

  datatype ListParams = ListParams(
    contextId: Text, status: Option<TaskState>, pageSize: Option<int>, pageToken: Text,
    statusTimestampAfter: Text, includeArtifacts: bool, historyLength: Option<int>)

  datatype ListResponse = ListResponse(tasks: seq<Task>, nextPageToken: Text, pageSize: int, totalSize: nat)

  datatype ListError = TokenMalformed | PageSizeOutOfRange | TimestampInvalid

  const DEFAULT_PAGE_SIZE := 50
  const BAR: CodeUnit := 124

  // ---------- order and filter ----------

  /** `task.status?.timestamp || ''` */
  function TimeOf(t: Task): Text {
    if t.status.Some? && t.status.value.timestamp.Some? then t.status.value.timestamp.value else []
  }

  /** `rank` stands for `localeCompare`: a strict total order on texts. */
  ghost predicate TotalOrder(rank: Text -> real) { forall a, b :: rank(a) == rank(b) ==> a == b }

  /** Newest first; ties by id, descending. */
  predicate Before(rank: Text -> real, t: Task, u: Task) {
    if TimeOf(t) != TimeOf(u) then rank(TimeOf(t)) > rank(TimeOf(u)) else rank(t.id) > rank(u.id)
  }

  predicate SameKey(t: Task, u: Task) { TimeOf(t) == TimeOf(u) && t.id == u.id }

  predicate Ordered(rank: Text -> real, list: seq<Task>) {
    forall i, j | 0 <= i < j < |list| :: Before(rank, list[i], list[j])
  }

  lemma BeforeIsTotal(rank: Text -> real, a: Task, b: Task, c: Task)
    requires TotalOrder(rank)
    ensures Before(rank, a, b) || Before(rank, b, a) || SameKey(a, b)
    ensures Before(rank, a, b) ==> !Before(rank, b, a) && !SameKey(a, b)
    ensures Before(rank, a, b) && Before(rank, b, c) ==> Before(rank, a, c)
  {}

  /** `millis` stands for `new Date(text).getTime()`; `None` is NaN. */
  predicate Matches(params: ListParams, millis: Text -> Option<int>, t: Task) {
    && (params.contextId != [] ==> t.contextId == params.contextId)
    && (params.status.Some? && params.status.value != Unspecified ==>
          t.status.Some? && t.status.value.state == params.status.value)
    && (params.statusTimestampAfter != [] ==>
          TimeOf(t) != [] && millis(TimeOf(t)).Some? && millis(params.statusTimestampAfter).Some? &&
          millis(TimeOf(t)).value > millis(params.statusTimestampAfter).value)
  }

  ghost predicate KeyedById(bucket: map<Text, Task>) { forall id | id in bucket :: bucket[id].id == id }

  /** `list` holds exactly the tasks of the bucket that pass the filter, in order. */
  ghost predicate IsListing(rank: Text -> real, millis: Text -> Option<int>, bucket: map<Text, Task>,
      params: ListParams, list: seq<Task>)
  {
    Ordered(rank, list) && forall t :: t in list <==> t.id in bucket && bucket[t.id] == t && Matches(params, millis, t)
  }

  /** There is only one such list. */
  lemma ListingIsUnique(rank: Text -> real, a: seq<Task>, b: seq<Task>)
    requires TotalOrder(rank) && Ordered(rank, a) && Ordered(rank, b) && forall t :: t in a <==> t in b
    ensures a == b
  {
    assert forall i | 0 <= i < |a| :: a[i] in b;
    assert forall i | 0 <= i < |b| :: b[i] in a;
    if a != [] && b != [] {
      assert a[0] == b[0] by { BeforeIsTotal(rank, a[0], b[0], a[0]); }
      forall t ensures t in a[1..] <==> t in b[1..] {
        BeforeIsTotal(rank, a[0], t, t);
        assert t in a[1..] <==> t in a && t != a[0] by { TailMembers(rank, a, t); }
        assert t in b[1..] <==> t in b && t != b[0] by { TailMembers(rank, b, t); }
      }
      ListingIsUnique(rank, a[1..], b[1..]);
    }
  }

  lemma TailMembers(rank: Text -> real, a: seq<Task>, t: Task)
    requires TotalOrder(rank) && a != [] && Ordered(rank, a)
    ensures t in a[1..] <==> t in a && t != a[0]
  {
    assert a == [a[0]] + a[1..];
    BeforeIsTotal(rank, a[0], t, t);
    assert t in a[1..] ==> Before(rank, a[0], t);
  }

  /** `x` is the task's timestamp, empty without a status or without one in it. */
  predicate HasTime(t: Task, x: Text) {
    x == match t.status
         case None => []
         case Some(status) => match status.timestamp { case None => [] case Some(time) => time }
  }

  /** A listing is newest first; of two tasks with one timestamp the one with the greater id comes
      first. */
  lemma ListingIsNewestFirst(rank: Text -> real, list: seq<Task>, i: nat, j: nat, x: Text, y: Text)
    requires TotalOrder(rank) && Ordered(rank, list) && i < j < |list| && HasTime(list[i], x) && HasTime(list[j], y)
    ensures rank(x) >= rank(y) && (x == y ==> rank(list[i].id) > rank(list[j].id))
  {
    assert Before(rank, list[i], list[j]);
  }

  /** The three filters: each asks what it says, they are independent, and an empty context id, an
      absent or unspecified status and an empty timestamp ask nothing. A task without a timestamp
      never passes a timestamp filter, nor does any task one that is not a date. */
  lemma MatchesIff(params: ListParams, millis: Text -> Option<int>, t: Task, x: Text)
    requires HasTime(t, x)
    ensures Matches(params, millis, t) <==>
      && (params.contextId == [] || t.contextId == params.contextId)
      && (params.status == None || params.status == Some(Unspecified) ||
          (t.status.Some? && Some(t.status.value.state) == params.status))
      && (params.statusTimestampAfter == [] ||
          (x != [] && match (millis(params.statusTimestampAfter), millis(x))
                      case (Some(limit), Some(time)) => limit < time
                      case _ => false))
  {}

  // ---------- cursor tokens ----------

  predicate BarFree(list: seq<Task>) { forall t | t in list :: BAR !in TimeOf(t) }

  /** Base64 and UTF-8 are taken as the identity. */
  function Encode(t: Task): Text { TimeOf(t) + [BAR] + t.id }

  datatype Cursor = Cursor(timestamp: Text, id: Text)

  /** `decoded.split('|')`, the first piece and the rest joined again. */
  function Decode(token: Text): Option<Cursor> {
    if token == [] then None
    else if token[0] == BAR then Some(Cursor([], token[1..]))
    else match Decode(token[1..])
      case None => None
      case Some(c) => Some(Cursor([token[0]] + c.timestamp, c.id))
  }

  lemma {:induction false} DecodeSplitsAtFirstBar(a: Text, b: Text)
    requires BAR !in a
    ensures Decode(a + [BAR] + b) == Some(Cursor(a, b))
  {
    var token := a + [BAR] + b;
    if a == [] {
      assert token[1..] == b;
    } else {
      assert token[1..] == a[1..] + [BAR] + b;
      DecodeSplitsAtFirstBar(a[1..], b);
      assert [a[0]] + a[1..] == a;
    }
  }

  lemma {:induction false} DecodedTimestampHasNoBar(token: Text)
    ensures Decode(token).Some? ==> BAR !in Decode(token).value.timestamp
  {
    if token != [] { DecodedTimestampHasNoBar(token[1..]); }
  }

  /** A token names its task exactly when the timestamp has no bar; ids may contain any. */
  lemma TokenRoundTrip(t: Task)
    ensures Decode(Encode(t)) == Some(Cursor(TimeOf(t), t.id)) <==> BAR !in TimeOf(t)
  {
    if BAR !in TimeOf(t) { DecodeSplitsAtFirstBar(TimeOf(t), t.id); }
    DecodedTimestampHasNoBar(Encode(t));
  }

  // ---------- one page ----------

  predicate IsCursor(t: Task, c: Cursor) { TimeOf(t) == c.timestamp && t.id == c.id }

  function FindCursorFrom(list: seq<Task>, c: Cursor, k: nat): (i: int)
    requires k <= |list|
    ensures i == -1 || (k <= i < |list| && IsCursor(list[i], c))
    ensures forall j | k <= j < |list| && (i == -1 || j < i) :: !IsCursor(list[j], c)
    decreases |list| - k
  {
    if k == |list| then -1 else if IsCursor(list[k], c) then k else FindCursorFrom(list, c, k + 1)
  }

  /** `findIndex` by timestamp and id. */
  function FindCursor(list: seq<Task>, c: Cursor): (i: int)
    ensures -1 <= i < |list| && (i >= 0 ==> IsCursor(list[i], c))
    ensures forall j | 0 <= j < |list| && (i == -1 || j < i) :: !IsCursor(list[j], c)
  {
    FindCursorFrom(list, c, 0)
  }

  function AfterCursor(list: seq<Task>, token: Text): Result<seq<Task>, ListError> {
    if token == [] then Ok(list)
    else match Decode(token)
      case None => Err(TokenMalformed)
      case Some(c) => var i := FindCursor(list, c); Ok(if i >= 0 then list[i + 1..] else [])
  }

  /** `list.slice(0, n)`; a negative `n` counts from the end. */
  function SliceTo(list: seq<Task>, n: int): seq<Task> {
    if n >= |list| then list else if n >= 0 then list[..n] else if -n >= |list| then [] else list[..|list| + n]
  }

  /** The slice is a beginning of the list: `n` tasks or all there are, for a negative `n` all but
      the last -n. */
  lemma SliceToIs(list: seq<Task>, n: int)
    ensures SliceTo(list, n) <= list
    ensures n >= 0 ==> |SliceTo(list, n)| <= n && (|SliceTo(list, n)| < n ==> SliceTo(list, n) == list)
    ensures n < 0 ==> |SliceTo(list, n)| == if |list| + n > 0 then |list| + n else 0
  {}

  datatype Page = Page(tasks: seq<Task>, next: Text)

  function PageOf(list: seq<Task>, token: Text, pageSize: int): Result<Page, ListError> {
    match AfterCursor(list, token)
    case Err(e) => Err(e)
    case Ok(rest) =>
      var page := SliceTo(rest, pageSize);
      Ok(Page(page, if page != [] && |rest| > |page| then Encode(page[|page| - 1]) else []))
  }

  function Strip(t: Task, includeArtifacts: bool): Task { if includeArtifacts then t else t.(artifacts := []) }

  // ---------- walking the pages of an unchanged store ----------

  /** `pages` is what a client gets that follows tokens from `token` until none is returned. */
  ghost predicate Walk(list: seq<Task>, token: Text, pageSize: int, pages: seq<seq<Task>>)
    decreases |pages|
  {
    && pages != []
    && PageOf(list, token, pageSize).Ok?
    && var p := PageOf(list, token, pageSize).value;
       p.tasks == pages[0] && if p.next == [] then |pages| == 1 else Walk(list, p.next, pageSize, pages[1..])
  }

  function Flatten(pages: seq<seq<Task>>): seq<Task> {
    if pages == [] then [] else pages[0] + Flatten(pages[1..])
  }

  function TokenAt(list: seq<Task>, start: nat): Text
    requires start <= |list|
  {
    if start == 0 then [] else Encode(list[start - 1])
  }

  function End(list: seq<Task>, start: nat, pageSize: int): int {
    if start + pageSize < |list| then start + pageSize else |list|
  }

  function PageFrom(list: seq<Task>, start: nat, pageSize: int): Page
    requires start <= |list| && pageSize >= 1
  {
    var end := End(list, start, pageSize);
    Page(list[start..end], if end < |list| then TokenAt(list, end) else [])
  }

  lemma PageAt(rank: Text -> real, list: seq<Task>, start: nat, pageSize: int)
    requires TotalOrder(rank) && Ordered(rank, list) && pageSize >= 1
    requires start <= |list| && (start > 0 ==> BAR !in TimeOf(list[start - 1]))
    ensures PageOf(list, TokenAt(list, start), pageSize) == Ok(PageFrom(list, start, pageSize))
  {
    CursorResumes(rank, list, start);
    PageOfRest(list, TokenAt(list, start), start, pageSize);
  }

  lemma PageFromIs(list: seq<Task>, start: nat, pageSize: int)
    requires start <= |list| && pageSize >= 1
    ensures var end, p := End(list, start, pageSize), PageFrom(list, start, pageSize);
      p.tasks == list[start..end] &&
      if end < |list|
      then p.next == Encode(list[end - 1]) != [] && p.tasks != [] && p.tasks[|p.tasks| - 1] == list[end - 1]
      else p.next == []
  {}

  lemma PageOfRest(list: seq<Task>, token: Text, start: nat, pageSize: int)
    requires start <= |list| && pageSize >= 1 && AfterCursor(list, token) == Ok(list[start..])
    ensures PageOf(list, token, pageSize) == Ok(PageFrom(list, start, pageSize))
  {
    PageOfOk(list, token, pageSize, list[start..]);
    PageOfSlice(list, start, pageSize);
  }

  lemma PageOfSlice(list: seq<Task>, start: nat, pageSize: int)
    requires start <= |list| && pageSize >= 1
    ensures var rest := list[start..];
      var page := SliceTo(rest, pageSize);
      PageFrom(list, start, pageSize) ==
        Page(page, if page != [] && |rest| > |page| then Encode(page[|page| - 1]) else [])
  {
    SliceIsPage(list, start, pageSize);
  }

  lemma PageOfOk(list: seq<Task>, token: Text, pageSize: int, rest: seq<Task>)
    requires AfterCursor(list, token) == Ok(rest)
    ensures var page := SliceTo(rest, pageSize);
      PageOf(list, token, pageSize) ==
        Ok(Page(page, if page != [] && |rest| > |page| then Encode(page[|page| - 1]) else []))
  {}

  lemma SliceIsPage(list: seq<Task>, start: nat, pageSize: int)
    requires start <= |list| && pageSize >= 1
    ensures var page, end := SliceTo(list[start..], pageSize), End(list, start, pageSize);
      page == list[start..end] && (page != [] ==> page[|page| - 1] == list[end - 1])
  {}

  lemma CursorResumes(rank: Text -> real, list: seq<Task>, start: nat)
    requires TotalOrder(rank) && Ordered(rank, list) && start <= |list|
    requires start > 0 ==> BAR !in TimeOf(list[start - 1])
    ensures AfterCursor(list, TokenAt(list, start)) == Ok(list[start..])
  {
    if start > 0 {
      FindCursorIs(rank, list, start - 1);
      TokenIsCursor(list, start - 1);
    } else {
      assert list[0..] == list;
    }
  }

  lemma TokenIsCursor(list: seq<Task>, i: nat)
    requires i < |list| && BAR !in TimeOf(list[i]) && FindCursor(list, Cursor(TimeOf(list[i]), list[i].id)) == i
    ensures AfterCursor(list, Encode(list[i])) == Ok(list[i + 1..])
  {
    DecodeSplitsAtFirstBar(TimeOf(list[i]), list[i].id);
    AfterDecodedCursor(list, Encode(list[i]), Cursor(TimeOf(list[i]), list[i].id));
  }

  lemma AfterDecodedCursor(list: seq<Task>, token: Text, c: Cursor)
    requires Decode(token) == Some(c) && FindCursor(list, c) >= 0
    ensures AfterCursor(list, token) == Ok(list[FindCursor(list, c) + 1..])
  {}

  /** A page token resumes right after its task exactly when that task's timestamp has no bar. */
  lemma CursorResumesExactly(rank: Text -> real, list: seq<Task>, i: nat)
    requires TotalOrder(rank) && Ordered(rank, list) && i + 1 < |list|
    ensures AfterCursor(list, Encode(list[i])) == Ok(list[i + 1..]) <==> BAR !in TimeOf(list[i])
  {
    if BAR !in TimeOf(list[i]) {
      CursorResumes(rank, list, i + 1);
    } else {
      TokenRoundTrip(list[i]);
      DecodedTimestampHasNoBar(Encode(list[i]));
      if Decode(Encode(list[i])).Some? {
        var j := FindCursor(list, Decode(Encode(list[i])).value);
        assert j >= 0 ==> j != i && |list[j + 1..]| != |list[i + 1..]|;
      }
    }
  }

  lemma FindCursorIs(rank: Text -> real, list: seq<Task>, i: nat)
    requires TotalOrder(rank) && Ordered(rank, list) && i < |list|
    ensures FindCursor(list, Cursor(TimeOf(list[i]), list[i].id)) == i
  {
    forall j | 0 <= j < |list| && j != i ensures !SameKey(list[j], list[i]) {
      BeforeIsTotal(rank, list[j], list[i], list[i]);
      BeforeIsTotal(rank, list[i], list[j], list[j]);
    }
  }

  function PagesNeeded(n: nat, pageSize: int): nat
    requires pageSize >= 1
  {
    if n <= pageSize then 1 else 1 + PagesNeeded(n - pageSize, pageSize)
  }

  lemma {:induction false} PagesNeededIsCeiling(n: nat, pageSize: int)
    requires pageSize >= 1
    ensures var k := PagesNeeded(n, pageSize); n <= k * pageSize && (k == 1 || (k - 1) * pageSize < n)
  {
    if n > pageSize {
      PagesNeededIsCeiling(n - pageSize, pageSize);
      var k := PagesNeeded(n - pageSize, pageSize);
      assert (k + 1) * pageSize == k * pageSize + pageSize;
      assert k * pageSize == (k - 1) * pageSize + pageSize;
    }
  }

  /** Following tokens on an unchanged store lists every task once, in order, in
      max(1, ceil(n / pageSize)) pages. */
  lemma WalkListsEverything(rank: Text -> real, list: seq<Task>, pageSize: int, pages: seq<seq<Task>>)
    requires TotalOrder(rank) && Ordered(rank, list) && BarFree(list)
    requires pageSize >= 1 && Walk(list, [], pageSize, pages)
    ensures Flatten(pages) == list
    ensures |list| <= |pages| * pageSize && (|pages| == 1 || (|pages| - 1) * pageSize < |list|)
  {
    WalkIsSlices(rank, list, 0, pageSize, pages);
    AllSlices(list, pageSize, pages);
  }

  lemma AllSlices(list: seq<Task>, pageSize: int, pages: seq<seq<Task>>)
    requires pageSize >= 1 && Slices(list, 0, pageSize, pages)
    ensures Flatten(pages) == list
    ensures |list| <= |pages| * pageSize && (|pages| == 1 || (|pages| - 1) * pageSize < |list|)
  {
    SlicesListEverything(list, 0, pageSize, pages);
    PagesNeededIsCeiling(|list|, pageSize);
    assert list[0..] == list;
  }

  lemma WalkUnrolls(list: seq<Task>, token: Text, pageSize: int, pages: seq<seq<Task>>, p: Page)
    requires PageOf(list, token, pageSize) == Ok(p) && Walk(list, token, pageSize, pages)
    ensures pages != [] && pages[0] == p.tasks
    ensures if p.next == [] then |pages| == 1 else Walk(list, p.next, pageSize, pages[1..])
  {}

  lemma WalkStep(rank: Text -> real, list: seq<Task>, start: nat, pageSize: int, pages: seq<seq<Task>>)
    requires TotalOrder(rank) && Ordered(rank, list) && BarFree(list) && pageSize >= 1 && start <= |list|
    requires Walk(list, TokenAt(list, start), pageSize, pages)
    ensures var end := End(list, start, pageSize);
      pages != [] && pages[0] == list[start..end] &&
      if end < |list| then Walk(list, TokenAt(list, end), pageSize, pages[1..]) else |pages| == 1
  {
    PageAt(rank, list, start, pageSize);
    PageFromIs(list, start, pageSize);
    WalkUnrolls(list, TokenAt(list, start), pageSize, pages, PageFrom(list, start, pageSize));
  }

  /** The slices of `list` from `start` on, `pageSize` tasks at a time. */
  ghost predicate Slices(list: seq<Task>, start: nat, pageSize: int, pages: seq<seq<Task>>)
    requires start <= |list| && pageSize >= 1
    decreases |pages|
  {
    var end := End(list, start, pageSize);
    pages != [] && pages[0] == list[start..end] &&
    if end < |list| then Slices(list, end, pageSize, pages[1..]) else |pages| == 1
  }

  lemma {:induction false} WalkIsSlices(rank: Text -> real, list: seq<Task>, start: nat, pageSize: int,
      pages: seq<seq<Task>>)
    requires TotalOrder(rank) && Ordered(rank, list) && BarFree(list)
    requires pageSize >= 1 && start <= |list| && Walk(list, TokenAt(list, start), pageSize, pages)
    ensures Slices(list, start, pageSize, pages)
    decreases |pages|
  {
    WalkStep(rank, list, start, pageSize, pages);
    var end := End(list, start, pageSize);
    if end < |list| { WalkIsSlices(rank, list, end, pageSize, pages[1..]); }
  }

  lemma {:induction false} SlicesListEverything(list: seq<Task>, start: nat, pageSize: int, pages: seq<seq<Task>>)
    requires pageSize >= 1 && start <= |list| && Slices(list, start, pageSize, pages)
    ensures Flatten(pages) == list[start..] && |pages| == PagesNeeded(|list| - start, pageSize)
    decreases |pages|
  {
    var end := End(list, start, pageSize);
    if end < |list| {
      SlicesListEverything(list, end, pageSize, pages[1..]);
      SplitAt(list, start, end);
    } else {
      assert pages[1..] == [];
    }
  }

  lemma SplitAt(list: seq<Task>, start: nat, end: nat)
    requires start <= end <= |list|
    ensures list[start..] == list[start..end] + list[end..]
  {}

  /** Such a walk always ends. */
  lemma {:induction false} WalkExists(rank: Text -> real, list: seq<Task>, start: nat, pageSize: int)
    returns (pages: seq<seq<Task>>)
    requires TotalOrder(rank) && Ordered(rank, list) && BarFree(list)
    requires pageSize >= 1 && start <= |list|
    ensures Walk(list, TokenAt(list, start), pageSize, pages)
    decreases |list| - start
  {
    PageAt(rank, list, start, pageSize);
    var end := End(list, start, pageSize);
    if end < |list| {
      var rest := WalkExists(rank, list, end, pageSize);
      pages := [list[start..end]] + rest;
      assert pages[1..] == rest && TokenAt(list, end) != [];
    } else {
      pages := [list[start..end]];
    }
  }

  // ---------- saves between pages ----------

  /** Each page is taken from the store as it is by then, whatever has been saved or removed. */
  ghost predicate WalkOver(lists: seq<seq<Task>>, token: Text, pageSize: int, pages: seq<seq<Task>>)
    decreases |pages|
  {
    && pages != [] && |lists| == |pages|
    && PageOf(lists[0], token, pageSize).Ok?
    && var p := PageOf(lists[0], token, pageSize).value;
       && p.tasks == pages[0]
       && if p.next == [] then |pages| == 1 else |lists| > 1 && WalkOver(lists[1..], p.next, pageSize, pages[1..])
  }

  ghost predicate After(rank: Text -> real, cursor: Option<Task>, t: Task) {
    cursor.Some? ==> Before(rank, cursor.value, t)
  }

  /** Some task with the same timestamp and id, whatever else has changed. */
  ghost predicate HasKey(list: seq<Task>, t: Task) { exists u :: u in list && SameKey(u, t) }

  ghost predicate InAll(lists: seq<seq<Task>>, t: Task) { forall i | 0 <= i < |lists| :: t in lists[i] }

  ghost predicate KeyInAll(lists: seq<seq<Task>>, t: Task) { forall i | 0 <= i < |lists| :: HasKey(lists[i], t) }

  ghost predicate InSome(lists: seq<seq<Task>>, t: Task) { exists i :: 0 <= i < |lists| && t in lists[i] }

  /** The task the last token named. */
  ghost function LastSeen(cursor: Option<Task>, listed: seq<Task>): Option<Task> {
    if listed == [] then cursor else Some(listed[|listed| - 1])
  }

  /** The walk was cut off before `t`: the last cursor's key had gone from the store by then. */
  ghost predicate CutOffBefore(rank: Text -> real, lists: seq<seq<Task>>, cursor: Option<Task>, listed: seq<Task>,
      t: Task)
    requires lists != []
  {
    var c := LastSeen(cursor, listed);
    c.Some? && !HasKey(lists[|lists| - 1], c.value) && After(rank, c, t)
  }

  /** What holds of the pages from some cursor on: no key comes back, and a task whose key stays
      throughout is listed exactly when the walk was not cut off before it. */
  ghost predicate ListsTheKept(rank: Text -> real, lists: seq<seq<Task>>, cursor: Option<Task>, listed: seq<Task>)
    requires lists != []
  {
    && Ordered(rank, listed)
    && (forall u | u in listed :: After(rank, cursor, u) && InSome(lists, u))
    && forall t | KeyInAll(lists, t) && After(rank, cursor, t) :: HasKey(listed, t) <==>
        !CutOffBefore(rank, lists, cursor, listed, t)
  }

  lemma WalkOverUnrolls(lists: seq<seq<Task>>, token: Text, pageSize: int, pages: seq<seq<Task>>, p: Page)
    requires |lists| > 0 && PageOf(lists[0], token, pageSize) == Ok(p) && WalkOver(lists, token, pageSize, pages)
    ensures pages != [] && pages[0] == p.tasks
    ensures p.next == [] ==> |pages| == 1 == |lists|
    ensures p.next != [] ==> |lists| > 1 && WalkOver(lists[1..], p.next, pageSize, pages[1..])
  {}

  /** Every listing is in order and its timestamps hold no bar. */
  ghost predicate Listings(rank: Text -> real, lists: seq<seq<Task>>) {
    forall i | 0 <= i < |lists| :: Ordered(rank, lists[i]) && BarFree(lists[i])
  }

  lemma ListingsTail(rank: Text -> real, lists: seq<seq<Task>>)
    requires |lists| > 0 && Listings(rank, lists)
    ensures Listings(rank, lists[1..])
  {
    assert forall i | 0 <= i < |lists| - 1 :: lists[1..][i] == lists[i + 1];
  }

  predicate BarFreeCursor(cursor: Option<Task>) { cursor.Some? ==> BAR !in TimeOf(cursor.value) }

  function TokenOf(cursor: Option<Task>): Text { if cursor.Some? then Encode(cursor.value) else [] }

  ghost function KeyIndex(list: seq<Task>, t: Task): (i: nat)
    requires HasKey(list, t)
    ensures i < |list| && SameKey(list[i], t)
  {
    var u :| u in list && SameKey(u, t);
    var i: nat :| i < |list| && list[i] == u;
    i
  }

  /** Where the page after `cursor` starts: behind its key, or at the end if that has gone. */
  ghost function StartAfter(list: seq<Task>, cursor: Option<Task>): (start: nat)
    ensures start <= |list|
    ensures cursor.None? ==> start == 0
    ensures cursor.Some? && HasKey(list, cursor.value) ==> start > 0 && SameKey(list[start - 1], cursor.value)
    ensures cursor.Some? && !HasKey(list, cursor.value) ==> start == |list|
  {
    if cursor.None? then 0 else if HasKey(list, cursor.value) then KeyIndex(list, cursor.value) + 1 else |list|
  }

  /** A cursor whose key has gone gives an empty last page. */
  lemma VanishedCursor(list: seq<Task>, c: Task, pageSize: int)
    requires BAR !in TimeOf(c) && !HasKey(list, c) && pageSize >= 1
    ensures PageOf(list, Encode(c), pageSize) == Ok(Page([], []))
  {
    DecodeSplitsAtFirstBar(TimeOf(c), c.id);
    var k := Cursor(TimeOf(c), c.id);
    assert forall i | 0 <= i < |list| :: list[i] in list && (IsCursor(list[i], k) <==> SameKey(list[i], c));
    NotFoundGivesNothing(list, Encode(c), k);
    PageOfOk(list, Encode(c), pageSize, []);
  }

  lemma NotFoundGivesNothing(list: seq<Task>, token: Text, c: Cursor)
    requires Decode(token) == Some(c) && FindCursor(list, c) < 0
    ensures AfterCursor(list, token) == Ok([])
  {}

  lemma PresentCursor(rank: Text -> real, list: seq<Task>, cursor: Option<Task>, pageSize: int)
    requires TotalOrder(rank) && Ordered(rank, list) && BarFree(list) && pageSize >= 1
    requires cursor.Some? ==> HasKey(list, cursor.value)
    ensures PageOf(list, TokenOf(cursor), pageSize) == Ok(PageFrom(list, StartAfter(list, cursor), pageSize))
  {
    assert TokenAt(list, StartAfter(list, cursor)) == TokenOf(cursor);
    PageAt(rank, list, StartAfter(list, cursor), pageSize);
  }

  /** The page after any cursor, still there or not. */
  lemma PageAfter(rank: Text -> real, list: seq<Task>, cursor: Option<Task>, pageSize: int)
    requires TotalOrder(rank) && Ordered(rank, list) && BarFree(list) && pageSize >= 1 && BarFreeCursor(cursor)
    ensures PageOf(list, TokenOf(cursor), pageSize).Ok?
    ensures var start, p := StartAfter(list, cursor), PageOf(list, TokenOf(cursor), pageSize).value;
      var end := End(list, start, pageSize);
      && p.tasks == list[start..end]
      && (end >= |list| ==> p.next == [])
      && (end < |list| ==> p.next == TokenOf(Some(list[end - 1])) != [])
  {
    if cursor.Some? && !HasKey(list, cursor.value) {
      VanishedCursor(list, cursor.value, pageSize);
    } else {
      PresentCursor(rank, list, cursor, pageSize);
      PageFromIs(list, StartAfter(list, cursor), pageSize);
    }
  }

  /** `pages` as slices, each of the listing of its own time. */
  ghost predicate SlicesOver(lists: seq<seq<Task>>, cursor: Option<Task>, pageSize: int, pages: seq<seq<Task>>)
    requires |lists| > 0 && pageSize >= 1
    decreases |pages|
  {
    var start := StartAfter(lists[0], cursor);
    var end := End(lists[0], start, pageSize);
    && SlicesFirst(lists, cursor, pageSize, pages)
    && (end < |lists[0]| ==> SlicesOver(lists[1..], Some(lists[0][end - 1]), pageSize, pages[1..]))
  }

  ghost predicate SlicesFirst(lists: seq<seq<Task>>, cursor: Option<Task>, pageSize: int, pages: seq<seq<Task>>)
    requires |lists| > 0 && pageSize >= 1
  {
    var start := StartAfter(lists[0], cursor);
    var end := End(lists[0], start, pageSize);
    && pages != [] && pages[0] == lists[0][start..end]
    && (end >= |lists[0]| ==> |pages| == 1 == |lists|)
    && (end < |lists[0]| ==> |lists| > 1)
  }

  lemma WalkOverStep(rank: Text -> real, lists: seq<seq<Task>>, cursor: Option<Task>, pageSize: int,
      pages: seq<seq<Task>>)
    requires TotalOrder(rank) && pageSize >= 1 && |lists| > 0 && Listings(rank, lists) && BarFreeCursor(cursor)
    requires WalkOver(lists, TokenOf(cursor), pageSize, pages)
    ensures SlicesFirst(lists, cursor, pageSize, pages)
    ensures var end := End(lists[0], StartAfter(lists[0], cursor), pageSize);
      end < |lists[0]| ==>
        WalkOver(lists[1..], TokenOf(Some(lists[0][end - 1])), pageSize, pages[1..]) &&
            BarFreeCursor(Some(lists[0][end - 1]))
  {
    var list := lists[0];
    assert Ordered(rank, list) && BarFree(list);
    PageAfter(rank, list, cursor, pageSize);
    WalkOverUnrolls(lists, TokenOf(cursor), pageSize, pages, PageOf(list, TokenOf(cursor), pageSize).value);
  }

  lemma {:induction false} WalkOverIsSlices(rank: Text -> real, lists: seq<seq<Task>>, cursor: Option<Task>,
      pageSize: int, pages: seq<seq<Task>>)
    requires TotalOrder(rank) && pageSize >= 1 && |lists| > 0 && Listings(rank, lists) && BarFreeCursor(cursor)
    requires WalkOver(lists, TokenOf(cursor), pageSize, pages)
    ensures SlicesOver(lists, cursor, pageSize, pages)
    decreases |pages|
  {
    WalkOverStep(rank, lists, cursor, pageSize, pages);
    var end := End(lists[0], StartAfter(lists[0], cursor), pageSize);
    if end < |lists[0]| {
      ListingsTail(rank, lists);
      WalkOverIsSlices(rank, lists[1..], Some(lists[0][end - 1]), pageSize, pages[1..]);
    }
  }

  lemma FlattenCons(pages: seq<seq<Task>>)
    requires pages != []
    ensures Flatten(pages) == pages[0] + Flatten(pages[1..])
  {}

  lemma KeyOf(rank: Text -> real, t: Task, u: Task, v: Task)
    requires SameKey(t, u)
    ensures Before(rank, t, v) <==> Before(rank, u, v)
    ensures Before(rank, v, t) <==> Before(rank, v, u)
  {}

  /** A slice behind a cursor that is there holds exactly the tasks after it. */
  lemma SuffixIsAfter(rank: Text -> real, list: seq<Task>, cursor: Option<Task>, start: nat)
    requires TotalOrder(rank) && Ordered(rank, list) && start <= |list|
    requires if cursor.Some? then start > 0 && SameKey(list[start - 1], cursor.value) else start == 0
    ensures forall t :: t in list[start..] <==> t in list && After(rank, cursor, t)
  {
    forall t ensures cursor.Some? ==> (Before(rank, cursor.value, t) <==> Before(rank, list[start - 1], t)) {
      if cursor.Some? { KeyOf(rank, list[start - 1], cursor.value, t); }
    }
    forall t | t in list && After(rank, cursor, t) ensures t in list[start..] {
      var i :| 0 <= i < |list| && list[i] == t;
      if i < start { BeforeIsTotal(rank, t, list[start - 1], t); }
      assert i >= start ==> list[start..][i - start] == t;
    }
  }

  lemma KeyAfter(rank: Text -> real, cursor: Option<Task>, t: Task, u: Task)
    requires SameKey(t, u)
    ensures After(rank, cursor, t) <==> After(rank, cursor, u)
  {
    if cursor.Some? { KeyOf(rank, t, u, cursor.value); }
  }

  lemma JoinPages(rank: Text -> real, list: seq<Task>, start: nat, end: nat, cursor: Option<Task>, later: seq<Task>)
    requires TotalOrder(rank) && Ordered(rank, list) && start < end <= |list|
    requires forall t | t in list[start..] :: After(rank, cursor, t)
    requires Ordered(rank, later) && forall t | t in later :: Before(rank, list[end - 1], t)
    ensures Ordered(rank, list[start..end] + later)
    ensures forall t | t in list[start..end] + later :: After(rank, cursor, t)
  {
    var page, all, last := list[start..end], list[start..end] + later, list[end - 1];
    assert last in list[start..] by { assert list[start..][end - 1 - start] == last; }
    forall i, j | 0 <= i < j < |all| ensures Before(rank, all[i], all[j]) {
      if j >= |page| {
        assert all[j] in later;
        if i < |page| { BeforeIsTotal(rank, all[i], last, all[j]); }
      }
    }
    forall t | t in all ensures After(rank, cursor, t) {
      if t in later { if cursor.Some? { BeforeIsTotal(rank, cursor.value, last, t); } }
      else {
        assert t in page;
        var i :| 0 <= i < |page| && page[i] == t;
        assert list[start..][i] == t;
      }
    }
  }

  /** The last page, after a cursor that is there, or none. */
  lemma LastPage(rank: Text -> real, list: seq<Task>, cursor: Option<Task>)
    requires TotalOrder(rank) && Ordered(rank, list) && (cursor.Some? ==> HasKey(list, cursor.value))
    ensures ListsTheKept(rank, [list], cursor, list[StartAfter(list, cursor)..])
  {
    SuffixIsAfter(rank, list, cursor, StartAfter(list, cursor));
    SuffixIsKept(rank, list, cursor, list[StartAfter(list, cursor)..]);
  }

  lemma SuffixIsKept(rank: Text -> real, list: seq<Task>, cursor: Option<Task>, listed: seq<Task>)
    requires Ordered(rank, listed) && (cursor.Some? ==> HasKey(list, cursor.value))
    requires forall t :: t in listed <==> t in list && After(rank, cursor, t)
    ensures ListsTheKept(rank, [list], cursor, listed)
  {
    var lists := [list];
    assert lists[0] == list;
    forall u | u in listed ensures InSome(lists, u) { assert u in lists[0]; }
    if listed != [] { MemberHasKey(list, listed[|listed| - 1]); }
    forall t | KeyInAll(lists, t) && After(rank, cursor, t) ensures HasKey(listed, t) {
      assert HasKey(lists[0], t);
      KeptKey(rank, list, cursor, listed, t);
    }
  }

  lemma MemberHasKey(list: seq<Task>, t: Task)
    requires t in list
    ensures HasKey(list, t)
  {
    assert SameKey(t, t);
  }

  lemma KeptKey(rank: Text -> real, list: seq<Task>, cursor: Option<Task>, listed: seq<Task>, t: Task)
    requires (forall u | u in list && After(rank, cursor, u) :: u in listed) && HasKey(list, t) &&
        After(rank, cursor, t)
    ensures HasKey(listed, t)
  {
    var u :| u in list && SameKey(u, t);
    KeyAfter(rank, cursor, u, t);
  }

  /** The page after a cursor whose key has gone: nothing, and everything behind it is missed. */
  lemma CutOffPage(rank: Text -> real, list: seq<Task>, cursor: Option<Task>)
    requires cursor.Some? && !HasKey(list, cursor.value)
    ensures ListsTheKept(rank, [list], cursor, [])
  {
    assert [list][0] == list;
  }

  lemma KeyInLater(lists: seq<seq<Task>>, list: seq<Task>, t: Task)
    requires KeyInAll([list] + lists, t)
    ensures KeyInAll(lists, t)
  {
    assert forall i | 0 <= i < |lists| :: ([list] + lists)[i + 1] == lists[i];
  }

  lemma HasKeyConcat(a: seq<Task>, b: seq<Task>, t: Task)
    ensures HasKey(a + b, t) <==> HasKey(a, t) || HasKey(b, t)
  {
    assert forall u :: u in a + b <==> u in a || u in b;
  }

  lemma LastSeenLater(page: seq<Task>, later: seq<Task>)
    requires page != []
    ensures LastSeen(None, page + later) == LastSeen(Some(page[|page| - 1]), later)
  {}

  /** Whether the walk is cut off is seen from its last page, however many come before. */
  lemma CutOffLater(rank: Text -> real, lists: seq<seq<Task>>, list: seq<Task>, page: seq<Task>, later: seq<Task>,
      t: Task)
    requires lists != [] && page != []
    ensures CutOffBefore(rank, [list] + lists, None, page + later, t) <==>
      CutOffBefore(rank, lists, Some(page[|page| - 1]), later, t)
  {
    LastSeenLater(page, later);
    assert ([list] + lists)[|lists|] == lists[|lists| - 1];
  }

  lemma BeforeThePage(rank: Text -> real, lists: seq<seq<Task>>, last: Task, later: seq<Task>, t: Task)
    requires TotalOrder(rank) && lists != [] && ListsTheKept(rank, lists, Some(last), later) && !Before(rank, last, t)
    ensures !CutOffBefore(rank, lists, Some(last), later, t)
  {
    if later != [] {
      var end := later[|later| - 1];
      assert end in later;
      BeforeIsTotal(rank, last, end, t);
    }
  }

  lemma LaterKept(rank: Text -> real, lists: seq<seq<Task>>, list: seq<Task>, page: seq<Task>, last: Task,
      later: seq<Task>, t: Task)
    requires TotalOrder(rank) && lists != [] && ListsTheKept(rank, lists, Some(last), later)
    requires page != [] && page[|page| - 1] == last && KeyInAll([list] + lists, t)
    requires HasKey(page, t) <==> !Before(rank, last, t)
    ensures HasKey(page + later, t) <==> !CutOffBefore(rank, [list] + lists, None, page + later, t)
  {
    KeyInLater(lists, list, t);
    HasKeyConcat(page, later, t);
    CutOffLater(rank, lists, list, page, later, t);
    if !Before(rank, last, t) { BeforeThePage(rank, lists, last, later, t); }
    else { assert After(rank, Some(last), t); }
  }

  lemma SamePlace(rank: Text -> real, list: seq<Task>, i: nat, j: nat)
    requires TotalOrder(rank) && Ordered(rank, list) && i < |list| && j < |list| && SameKey(list[i], list[j])
    ensures i == j
  {
    BeforeIsTotal(rank, list[i], list[j], list[i]);
    BeforeIsTotal(rank, list[j], list[i], list[j]);
  }

  /** A key of the list after the cursor is on the page exactly when it is not after its end. */
  lemma PageHasKey(rank: Text -> real, list: seq<Task>, start: nat, end: nat, cursor: Option<Task>, t: Task)
    requires TotalOrder(rank) && Ordered(rank, list) && start < end <= |list| && HasKey(list, t) &&
        After(rank, cursor, t)
    requires if cursor.Some? then start > 0 && SameKey(list[start - 1], cursor.value) else start == 0
    ensures HasKey(list[start..end], t) <==> !Before(rank, list[end - 1], t)
  {
    var k := KeyIndex(list, t);
    KeyIsAfterStart(rank, list, start, cursor, k, t);
    KeyOf(rank, list[k], t, list[end - 1]);
    if k < end {
      assert list[start..end][k - start] == list[k];
      if k < end - 1 { BeforeIsTotal(rank, list[k], list[end - 1], list[k]); }
      else { BeforeIsTotal(rank, list[k], list[k], list[k]); }
      MemberKey(list[start..end], list[k], t);
    } else {
      NotOnPage(rank, list, start, end, k, t);
    }
  }

  lemma MemberKey(page: seq<Task>, u: Task, t: Task)
    requires u in page && SameKey(u, t)
    ensures HasKey(page, t)
  {}

  lemma KeyIsAfterStart(rank: Text -> real, list: seq<Task>, start: nat, cursor: Option<Task>, k: nat, t: Task)
    requires TotalOrder(rank) && Ordered(rank, list) && k < |list| && start <= |list| && SameKey(list[k], t) &&
        After(rank, cursor, t)
    requires if cursor.Some? then start > 0 && SameKey(list[start - 1], cursor.value) else start == 0
    ensures k >= start
  {
    KeyAfter(rank, cursor, list[k], t);
    if cursor.Some? {
      KeyOf(rank, list[start - 1], cursor.value, list[k]);
      BeforeIsTotal(rank, list[start - 1], list[k], list[k]);
    }
  }

  lemma NotOnPage(rank: Text -> real, list: seq<Task>, start: nat, end: nat, k: nat, t: Task)
    requires TotalOrder(rank) && Ordered(rank, list) && start < end <= k < |list| && SameKey(list[k], t)
    ensures !HasKey(list[start..end], t)
  {
    forall u | u in list[start..end] ensures !SameKey(u, t) {
      var j :| 0 <= j < |list[start..end]| && list[start..end][j] == u;
      assert list[start + j] == u;
      BeforeIsTotal(rank, list[start + j], list[k], list[k]);
    }
  }

  lemma AddPage(rank: Text -> real, lists: seq<seq<Task>>, list: seq<Task>, start: nat, end: nat,
      cursor: Option<Task>, later: seq<Task>)
    requires TotalOrder(rank) && lists != [] && Ordered(rank, list) && start < end <= |list|
    requires if cursor.Some? then start > 0 && SameKey(list[start - 1], cursor.value) else start == 0
    requires ListsTheKept(rank, lists, Some(list[end - 1]), later)
    ensures ListsTheKept(rank, [list] + lists, cursor, list[start..end] + later)
  {
    var page, last, all := list[start..end], list[end - 1], list[start..end] + later;
    SuffixIsAfter(rank, list, cursor, start);
    JoinPages(rank, list, start, end, cursor, later);
    forall u | u in all ensures InSome([list] + lists, u) {
      if u in page { assert u in ([list] + lists)[0]; }
      else {
        var i :| 0 <= i < |lists| && u in lists[i];
        assert u in ([list] + lists)[i + 1];
      }
    }
    forall t | KeyInAll([list] + lists, t) && After(rank, cursor, t)
      ensures HasKey(all, t) <==> !CutOffBefore(rank, [list] + lists, cursor, all, t)
    {
      assert HasKey(([list] + lists)[0], t);
      PageHasKey(rank, list, start, end, cursor, t);
      LaterKept(rank, lists, list, page, last, later, t);
    }
  }

  lemma KeptStep(rank: Text -> real, lists: seq<seq<Task>>, cursor: Option<Task>, pageSize: int, pages: seq<seq<Task>>)
    requires TotalOrder(rank) && pageSize >= 1 && |lists| > 0 && Ordered(rank, lists[0])
    requires SlicesFirst(lists, cursor, pageSize, pages)
    requires var end := End(lists[0], StartAfter(lists[0], cursor), pageSize);
      end < |lists[0]| ==> ListsTheKept(rank, lists[1..], Some(lists[0][end - 1]), Flatten(pages[1..]))
    ensures ListsTheKept(rank, lists, cursor, Flatten(pages))
  {
    var list := lists[0];
    var start := StartAfter(list, cursor);
    var end := End(list, start, pageSize);
    FlattenCons(pages);
    if end < |list| {
      assert lists == [list] + lists[1..];
      AddPage(rank, lists[1..], list, start, end, cursor, Flatten(pages[1..]));
    } else {
      assert lists == [list] && pages[1..] == [] && list[start..end] + [] == list[start..];
      if cursor.Some? && !HasKey(list, cursor.value) {
        assert list[start..] == [];
        CutOffPage(rank, list, cursor);
      } else {
        LastPage(rank, list, cursor);
      }
    }
  }

  lemma {:induction false} SlicesListTheKept(rank: Text -> real, lists: seq<seq<Task>>, cursor: Option<Task>,
      pageSize: int, pages: seq<seq<Task>>)
    requires TotalOrder(rank) && pageSize >= 1 && |lists| > 0 && Listings(rank, lists)
    requires SlicesOver(lists, cursor, pageSize, pages)
    ensures ListsTheKept(rank, lists, cursor, Flatten(pages))
    decreases |pages|
  {
    var end := End(lists[0], StartAfter(lists[0], cursor), pageSize);
    if end < |lists[0]| {
      ListingsTail(rank, lists);
      SlicesListTheKept(rank, lists[1..], Some(lists[0][end - 1]), pageSize, pages[1..]);
    }
    assert Ordered(rank, lists[0]);
    KeptStep(rank, lists, cursor, pageSize, pages);
  }

  lemma WalkOverChangingStore(rank: Text -> real, lists: seq<seq<Task>>, cursor: Option<Task>, pageSize: int,
      pages: seq<seq<Task>>)
    requires TotalOrder(rank) && pageSize >= 1 && |lists| > 0 && Listings(rank, lists) && BarFreeCursor(cursor)
    requires WalkOver(lists, TokenOf(cursor), pageSize, pages)
    ensures ListsTheKept(rank, lists, cursor, Flatten(pages))
  {
    WalkOverIsSlices(rank, lists, cursor, pageSize, pages);
    SlicesListTheKept(rank, lists, cursor, pageSize, pages);
  }

  /** The whole walk, over a store that changes in any way: across pages no key repeats; a task
      whose key stays throughout is listed, in some version, exactly when the walk was not cut off
      before it; and then, if it stays unchanged, it appears exactly once. */
  lemma UnchangedTasksAppearOnce(rank: Text -> real, lists: seq<seq<Task>>, pageSize: int, pages: seq<seq<Task>>,
      t: Task)
    requires TotalOrder(rank) && pageSize >= 1 && |lists| > 0 && Listings(rank, lists)
    requires WalkOver(lists, [], pageSize, pages)
    ensures forall i, j | 0 <= i < j < |Flatten(pages)| :: !SameKey(Flatten(pages)[i], Flatten(pages)[j])
    ensures KeyInAll(lists, t) ==> (HasKey(Flatten(pages), t) <==> !CutOffBefore(rank, lists, None, Flatten(pages), t))
    ensures InAll(lists, t) && !CutOffBefore(rank, lists, None, Flatten(pages), t) ==> multiset(Flatten(pages))[t] == 1
  {
    WalkOverChangingStore(rank, lists, None, pageSize, pages);
    var all := Flatten(pages);
    forall i, j | 0 <= i < j < |all| ensures !SameKey(all[i], all[j]) { BeforeIsTotal(rank, all[i], all[j], all[j]); }
    assert After(rank, None, t);
    if InAll(lists, t) && !CutOffBefore(rank, lists, None, all, t) {
      assert KeyInAll(lists, t) by { assert forall i | 0 <= i < |lists| :: t in lists[i] && SameKey(t, t); }
      KeptIsListed(rank, lists, all, t);
      CountsOnce(all, t);
    }
  }

  /** One list holds one task of a key, so what is listed of an unchanged task is that task. */
  lemma KeptIsListed(rank: Text -> real, lists: seq<seq<Task>>, all: seq<Task>, t: Task)
    requires TotalOrder(rank) && Listings(rank, lists) && InAll(lists, t) && HasKey(all, t)
    requires forall u | u in all :: InSome(lists, u)
    ensures t in all
  {
    var u :| u in all && SameKey(u, t);
    var k :| 0 <= k < |lists| && u in lists[k];
    assert Ordered(rank, lists[k]) && t in lists[k];
    var i :| 0 <= i < |lists[k]| && lists[k][i] == u;
    var j :| 0 <= j < |lists[k]| && lists[k][j] == t;
    SamePlace(rank, lists[k], i, j);
  }

  lemma {:induction false} CountsOnce(all: seq<Task>, t: Task)
    requires t in all && forall i, j | 0 <= i < j < |all| :: !SameKey(all[i], all[j])
    ensures multiset(all)[t] == 1
  {
    assert all == [all[0]] + all[1..];
    if t in all[1..] {
      CountsOnce(all[1..], t);
      assert all[0] != t;
    }
  }

  // ---------- the store ----------

  function InsertTask(rank: Text -> real, t: Task, list: seq<Task>): seq<Task> {
    if list == [] then [t]
    else if Before(rank, t, list[0]) then [t] + list
    else [list[0]] + InsertTask(rank, t, list[1..])
  }

  lemma {:induction false} InsertTaskKeepsOrder(rank: Text -> real, t: Task, list: seq<Task>)
    requires TotalOrder(rank) && Ordered(rank, list) && forall u | u in list :: u.id != t.id
    ensures Ordered(rank, InsertTask(rank, t, list))
    ensures forall u :: u in InsertTask(rank, t, list) <==> u == t || u in list
  {
    if list != [] {
      assert list == [list[0]] + list[1..];
      BeforeIsTotal(rank, t, list[0], t);
      if Before(rank, t, list[0]) {
        forall u | u in list ensures Before(rank, t, u) { BeforeIsTotal(rank, t, list[0], u); }
      } else {
        InsertTaskKeepsOrder(rank, t, list[1..]);
        var rest := InsertTask(rank, t, list[1..]);
        forall i | 0 <= i < |rest| ensures Before(rank, list[0], rest[i]) { assert rest[i] in rest; }
      }
    }
  }

  function StripAll(tasks: seq<Task>, includeArtifacts: bool): seq<Task> {
    seq(|tasks|, i requires 0 <= i < |tasks| => Strip(tasks[i], includeArtifacts))
  }

  /** The response for a given listing. */
  function Respond(list: seq<Task>, params: ListParams): Result<ListResponse, ListError> {
    var pageSize := if params.pageSize.Some? then params.pageSize.value else DEFAULT_PAGE_SIZE;
    match PageOf(list, params.pageToken, pageSize)
    case Err(e) => Err(e)
    case Ok(p) =>
      var tasks := StripAll(p.tasks, params.includeArtifacts);
      Ok(ListResponse(tasks, p.next, pageSize, |list|))
  }

  /** The response reports the size of the whole listing and the page size in use, 50 unless the
      request names one. Its tasks are those of the page, their artifacts dropped unless asked
      for. It fails only for a token that cannot be decoded. */
  lemma RespondIs(list: seq<Task>, params: ListParams)
    ensures var pageSize := match params.pageSize { case Some(n) => n case None => 50 };
      var page, r := PageOf(list, params.pageToken, pageSize), Respond(list, params);
      && (r.Err? <==> params.pageToken != [] && Decode(params.pageToken).None?)
      && (r.Err? ==> r.error == TokenMalformed)
      && (r.Ok? ==>
            && page.Ok? && r.value.nextPageToken == page.value.next
            && r.value.totalSize == |list| && r.value.pageSize == pageSize
            && |r.value.tasks| == |page.value.tasks|
            && forall i | 0 <= i < |page.value.tasks| ::
                 var t, u := page.value.tasks[i], r.value.tasks[i];
                 u == if params.includeArtifacts then t else
                   Task(t.id, t.contextId, t.status, [], t.history, t.metadata))
  {}

  /** The total counts the stored tasks that pass the filter. */
  lemma ListingCounts(rank: Text -> real, millis: Text -> Option<int>, bucket: map<Text, Task>, params: ListParams,
      list: seq<Task>)
    requires TotalOrder(rank) && KeyedById(bucket) && IsListing(rank, millis, bucket, params, list)
    ensures |list| == |set id | id in bucket && Matches(params, millis, bucket[id])|
  {
    var ids := set id | id in bucket && Matches(params, millis, bucket[id]);
    forall id ensures id in ids <==> exists i :: 0 <= i < |list| && list[i].id == id {
      if id in ids {
        assert bucket[id] in list;
        var i :| 0 <= i < |list| && list[i] == bucket[id];
      }
      forall i | 0 <= i < |list| && list[i].id == id ensures id in ids { assert list[i] in list; }
    }
    forall i, j | 0 <= i < j < |list| ensures list[i].id != list[j].id {
      assert list[i] in list && list[j] in list;
      assert Before(rank, list[i], list[j]);
    }
    IdsCount(list, ids);
  }

  lemma {:induction false} IdsCount(list: seq<Task>, ids: set<Text>)
    requires forall i, j | 0 <= i < j < |list| :: list[i].id != list[j].id
    requires forall id :: id in ids <==> exists i :: 0 <= i < |list| && list[i].id == id
    ensures |ids| == |list|
    decreases |list|
  {
    if list == [] {
      assert ids == {};
    } else {
      var n := |list| - 1;
      var rest := ids - {list[n].id};
      assert list[n].id in ids;
      forall id ensures id in rest <==> exists i :: 0 <= i < n && list[..n][i].id == id {
        if id in rest {
          var i :| 0 <= i < |list| && list[i].id == id;
          assert i < n && list[..n][i].id == id;
        }
        forall i | 0 <= i < n && list[..n][i].id == id ensures id in rest { assert list[i].id == id; }
      }
      IdsCount(list[..n], rest);
    }
  }

  /** `r` is the response `p`, every task's history cut to the most recent messages. */
  predicate CutEach(p: Result<ListResponse, ListError>, historyLength: Option<int>, r: Result<ListResponse, ListError>)
  {
    match p
    case Err(e) => r == Err(e)
    case Ok(all) =>
      && r.Ok? && |r.value.tasks| == |all.tasks| && r.value.(tasks := all.tasks) == all
      && forall i | 0 <= i < |all.tasks| :: KeepsLatest(all.tasks[i], historyLength, r.value.tasks[i])
  }

  /** `ownerResolver` names the owner of a call; `OwnerOf` is the default one. */
  class InMemoryTaskStore {
    const ownerResolver: Context -> Text
    var tenants: map<Text, map<Text, map<Text, Task>>>

    ghost predicate Valid() reads this { forall s: Scope :: KeyedById(BucketAt(s)) }

    function BucketAt(s: Scope): map<Text, Task> reads this {
      if s.tenant in tenants && s.owner in tenants[s.tenant] then tenants[s.tenant][s.owner] else map[]
    }

    function Scoped(c: Context): Scope { Scope(TenantOf(c), ownerResolver(c)) }

    /** Two callers share a scope exactly when they are of one tenant and the resolver names one
        owner for both; two tenants never do, whatever the resolver. */
    lemma ScopesAre(a: Context, b: Context)
      ensures Scoped(a) == Scoped(b) <==>
        SameOrBothEmpty(a.tenant, b.tenant) && ownerResolver(a) == ownerResolver(b)
    {}

    constructor (ownerResolver: Context -> Text)
      ensures Valid() && this.ownerResolver == ownerResolver && forall s: Scope :: BucketAt(s) == map[]
    {
      this.ownerResolver, tenants := ownerResolver, map[];
    }

    method Load(taskId: Text, context: Context) returns (task: Option<Task>)
      requires Valid()
      ensures var bucket := BucketAt(Scoped(context)); task == if taskId in bucket then Some(bucket[taskId]) else None
      ensures task.Some? ==> task.value.id == taskId
    {
      var bucket := BucketAt(Scoped(context));
      assert KeyedById(bucket);
      task := if taskId in bucket then Some(bucket[taskId]) else None;
    }

    /** Overwrites one slot; callers of another tenant or owner find their tasks as they were. */
    method Save(task: Task, context: Context)
      requires Valid()
      modifies this
      ensures Valid()
      ensures BucketAt(Scoped(context)) == old(BucketAt(Scoped(context)))[task.id := task]
      ensures forall s: Scope | s != Scoped(context) :: BucketAt(s) == old(BucketAt(s))
      ensures forall c: Context ::
        BucketAt(Scoped(c)) ==
          if SameOrBothEmpty(c.tenant, context.tenant) && ownerResolver(c) == ownerResolver(context)
          then old(BucketAt(Scoped(c)))[task.id := task] else old(BucketAt(Scoped(c)))
    {
      var s := Scoped(context);
      var owners := if s.tenant in tenants then tenants[s.tenant] else map[];
      var bucket := if s.owner in owners then owners[s.owner] else map[];
      assert KeyedById(BucketAt(s)) && bucket == BucketAt(s);
      tenants := tenants[s.tenant := owners[s.owner := bucket[task.id := task]]];
      assert BucketAt(s) == old(BucketAt(s))[task.id := task];
      assert forall o: Scope | o != s :: BucketAt(o) == old(BucketAt(o));
    }

    method List(params: ListParams, context: Context, rank: Text -> real, millis: Text -> Option<int>)
      returns (r: Result<ListResponse, ListError>)
      requires Valid() && TotalOrder(rank)
      ensures exists list ::
        IsListing(rank, millis, BucketAt(Scoped(context)), params, list) && r == Respond(list, params)
    {
      var bucket := BucketAt(Scoped(context));
      assert KeyedById(bucket);
      var tasks: seq<Task> := [];
      var todo := bucket.Keys;
      while todo != {}
        invariant todo <= bucket.Keys && Ordered(rank, tasks)
        invariant forall t ::
          t in tasks <==> t.id in bucket.Keys - todo && bucket[t.id] == t && Matches(params, millis, t)
        decreases todo
      {
        var id :| id in todo;
        if Matches(params, millis, bucket[id]) {
          InsertTaskKeepsOrder(rank, bucket[id], tasks);
          tasks := InsertTask(rank, bucket[id], tasks);
        }
        todo := todo - {id};
      }
      assert IsListing(rank, millis, bucket, params, tasks);
      r := Respond(tasks, params);
    }

    /** `DefaultRequestHandler.listTasks`: every page size that reaches the store is at least 1, and
        every task in the response is cut to the history asked for. */
    method ListTasks(params: ListParams, context: Context, rank: Text -> real, millis: Text -> Option<int>)
      returns (r: Result<ListResponse, ListError>)
      requires Valid() && TotalOrder(rank)
      ensures var pageSize := match params.pageSize { case Some(n) => n case None => 50 };
        if !(1 <= pageSize <= 100) then r == Err(PageSizeOutOfRange)
        else if params.statusTimestampAfter != [] && millis(params.statusTimestampAfter).None?
        then r == Err(TimestampInvalid)
        else exists list ::
          IsListing(rank, millis, BucketAt(Scoped(context)), params, list) &&
          CutEach(Respond(list, params), params.historyLength, r)
    {
      var pageSize := if params.pageSize.Some? then params.pageSize.value else DEFAULT_PAGE_SIZE;
      if pageSize < 1 || pageSize > 100 { return Err(PageSizeOutOfRange); }
      if params.statusTimestampAfter != [] && millis(params.statusTimestampAfter).None? {
        return Err(TimestampInvalid);
      }
      var response := List(params.(pageSize := Some(pageSize)), context, rank, millis);
      ghost var sized := params.(pageSize := Some(pageSize));
      ghost var list :|
        IsListing(rank, millis, BucketAt(Scoped(context)), sized, list) && response == Respond(list, sized);
      SizedAlike(rank, millis, BucketAt(Scoped(context)), params, list);
      match response
      case Err(_) => r := response;
      case Ok(p) =>
        var tasks := LimitEach(p.tasks, params.historyLength);
        r := Ok(p.(tasks := tasks));
    }
  }

  lemma SizedAlike(rank: Text -> real, millis: Text -> Option<int>, bucket: map<Text, Task>, params: ListParams,
      list: seq<Task>)
    ensures var pageSize := if params.pageSize.Some? then params.pageSize.value else DEFAULT_PAGE_SIZE;
      var sized := params.(pageSize := Some(pageSize));
      && (IsListing(rank, millis, bucket, sized, list) ==> IsListing(rank, millis, bucket, params, list))
      && Respond(list, sized) == Respond(list, params)
  {}

  method LimitEach(tasks: seq<Task>, historyLength: Option<int>) returns (limited: seq<Task>)
    ensures |limited| == |tasks|
    ensures forall i | 0 <= i < |tasks| :: KeepsLatest(tasks[i], historyLength, limited[i])
  {
    limited := [];
    for i := 0 to |tasks|
      invariant |limited| == i && forall j | 0 <= j < i :: KeepsLatest(tasks[j], historyLength, limited[j])
    {
      LimitedKeepsLatest(tasks[i], historyLength, Limited(tasks[i], historyLength));
      limited := limited + [Limited(tasks[i], historyLength)];
    }
  }
}
