/**
 * The project and chapter tables and the three routes that change or list
 * them: `POST /api/chapters` (src/app/api/chapters/route.ts) and
 * `GET`/`POST /api/projects` (src/app/api/projects/route.ts). The tables are
 * sequences of rows in insertion order; new ids and the clock are inputs.
 */
module Library {
  import opened Wrappers
  import opened Strings
  import opened Http

  /** A row of `projects` (src/lib/db/schema.ts lines 4-10). */
  datatype Project = Project(id: string, title: string, description: Option<string>, createdAt: int, updatedAt: int)

  /** A row of `chapters` (src/lib/db/schema.ts lines 13-24). */
  datatype Chapter = Chapter(id: string, projectId: string, title: string, content: string, order: int,
                             wordCount: int, createdAt: int, updatedAt: int)

  /** `{ projectId, title }`. */
  datatype ChapterBody = ChapterBody(projectId: Option<string>, title: Option<string>)

  /** `{ title, description }`. */
  datatype ProjectBody = ProjectBody(title: Option<string>, description: Option<string>)

  /** `{ ...project, firstChapterId }`. */
  datatype CreatedProject = CreatedProject(project: Option<Project>, firstChapterId: string)

  // ---------------------------------------------------------------------
  // Chapter order and default title
  // ---------------------------------------------------------------------

  /** The chapters of one project, in table order (`where projectId = ...`). */
  function ProjectChapters(chapters: seq<Chapter>, projectId: string): (r: seq<Chapter>)
    ensures forall c :: c in r <==> c in chapters && c.projectId == projectId
    ensures |r| <= |chapters|
  {
    if chapters == [] then []
    else
      var rest := ProjectChapters(chapters[..|chapters| - 1], projectId);
      var last := chapters[|chapters| - 1];
      assert chapters == chapters[..|chapters| - 1] + [last];
      if last.projectId == projectId then rest + [last] else rest
  }

  /** Adding a chapter of another project leaves a project's list as it was;
      adding one of its own appends it. */
  lemma ProjectChaptersSnoc(chapters: seq<Chapter>, c: Chapter, projectId: string)
    ensures ProjectChapters(chapters + [c], projectId) ==
              if c.projectId == projectId then ProjectChapters(chapters, projectId) + [c] else ProjectChapters(chapters, projectId)
  {
    assert (chapters + [c])[..|chapters|] == chapters;
  }

  lemma {:induction false} NoProjectChapters(chapters: seq<Chapter>, projectId: string)
    requires forall c :: c in chapters ==> c.projectId != projectId
    ensures ProjectChapters(chapters, projectId) == []
  {
    if chapters != [] {
      assert chapters[|chapters| - 1] in chapters;
      NoProjectChapters(chapters[..|chapters| - 1], projectId);
    }
  }

  /** `Math.max(...orders)` of a non-empty list. */
  function MaxOrder(chapters: seq<Chapter>): (m: int)
    requires chapters != []
    ensures forall c :: c in chapters ==> c.order <= m
    ensures exists c :: c in chapters && c.order == m
  {
    if |chapters| == 1 then chapters[0].order
    else
      var rest := MaxOrder(chapters[1..]);
      assert forall c :: c in chapters[1..] ==> c in chapters;
      assert chapters[0] in chapters;
      if chapters[0].order >= rest then chapters[0].order else rest
  }

  /** `maxOrder + 1`, where `maxOrder` is -1 for a project without chapters. */
  function NextOrder(chapters: seq<Chapter>, projectId: string): int {
    var existing := ProjectChapters(chapters, projectId);
    if |existing| > 0 then MaxOrder(existing) + 1 else 0
  }

  /** Some chapter of the project has this order. */
  predicate OrderTaken(chapters: seq<Chapter>, projectId: string, k: int) {
    exists c :: c in chapters && c.projectId == projectId && c.order == k
  }

  /** The new order is above every existing order of the project, and it is
      the least such value: one below it is taken, or it is 0. */
  lemma NextOrderAbove(chapters: seq<Chapter>, projectId: string)
    ensures forall c :: c in chapters && c.projectId == projectId ==> c.order < NextOrder(chapters, projectId)
    ensures OrderTaken(chapters, projectId, NextOrder(chapters, projectId) - 1)
            || (NextOrder(chapters, projectId) == 0 && forall c :: c in chapters ==> c.projectId != projectId)
  {
    var existing := ProjectChapters(chapters, projectId);
    if |existing| > 0 {
      var m := MaxOrder(existing);
      var c :| c in existing && c.order == m;
      assert c in chapters && c.projectId == projectId;
    }
  }

  /** Orders 0..n-1 become 0..n. */
  lemma NextOrderConsecutive(chapters: seq<Chapter>, projectId: string, n: nat)
    requires forall k: int :: OrderTaken(chapters, projectId, k) <==> 0 <= k < n
    ensures NextOrder(chapters, projectId) == n
  {
    NextOrderAbove(chapters, projectId);
    var next := NextOrder(chapters, projectId);
    if n > 0 {
      assert OrderTaken(chapters, projectId, n - 1);
    }
  }

  /** `title || \`Chapter ${count + 1}\``. */
  function ChapterTitle(title: Option<string>, count: nat): string {
    if Truthy(title) then title.value else "Chapter " + NatToString(count + 1)
  }

  /** A default title names the count it was made from, so defaults made
      from different counts differ. */
  lemma DefaultTitleNumber(count: nat, other: nat)
    ensures ChapterTitle(None, count)[..8] == "Chapter " && DigitsValue(ChapterTitle(None, count)[8..]) == count + 1
    ensures count != other ==> ChapterTitle(None, count) != ChapterTitle(None, other)
  {
    var t := ChapterTitle(None, count);
    assert t[8..] == NatToString(count + 1);
    NatToStringRoundTrip(count + 1);
    if t == ChapterTitle(None, other) {
      assert ChapterTitle(None, other)[8..] == NatToString(other + 1);
      NatToStringInjective(count + 1, other + 1);
    }
  }

  /** The row a valid `POST /api/chapters` inserts. */
  function NewChapter(chapters: seq<Chapter>, projectId: string, title: Option<string>, id: string, now: int): Chapter {
    Chapter(id, projectId, ChapterTitle(title, |ProjectChapters(chapters, projectId)|), "", NextOrder(chapters, projectId), 0, now, now)
  }

  /** `update projects set updatedAt = now where id = projectId`. */
  function Touch(projects: seq<Project>, projectId: string, now: int): (r: seq<Project>)
    ensures |r| == |projects|
    ensures forall i :: 0 <= i < |r| && projects[i].id == projectId ==> r[i] == projects[i].(updatedAt := now)
    ensures forall i :: 0 <= i < |r| && projects[i].id != projectId ==> r[i] == projects[i]
  {
    if projects == [] then []
    else
      var p := projects[0];
      [if p.id == projectId then p.(updatedAt := now) else p] + Touch(projects[1..], projectId, now)
  }

  /** `select ... where id = chapterId` followed by `.get()`: the first match. */
  function ChapterById(chapters: seq<Chapter>, id: string): (r: Option<Chapter>)
    ensures r.Some? ==> r.value in chapters && r.value.id == id
    ensures r.None? <==> forall c :: c in chapters ==> c.id != id
  {
    if chapters == [] then None
    else if chapters[0].id == id then Some(chapters[0])
    else
      assert forall c :: c in chapters[1..] ==> c in chapters;
      assert forall c :: c in chapters ==> c == chapters[0] || c in chapters[1..];
      ChapterById(chapters[1..], id)
  }

  /** With a fresh id, the chapter read back is the one just inserted. */
  lemma ChapterReadBack(chapters: seq<Chapter>, c: Chapter)
    requires forall d :: d in chapters ==> d.id != c.id
    ensures ChapterById(chapters + [c], c.id) == Some(c)
  {
    if chapters != [] {
      assert (chapters + [c])[1..] == chapters[1..] + [c];
      ChapterReadBack(chapters[1..], c);
    }
  }

  /** `select ... where id = projectId` followed by `.get()`. */
  function ProjectById(projects: seq<Project>, id: string): (r: Option<Project>)
    ensures r.Some? ==> r.value in projects && r.value.id == id
    ensures r.None? <==> forall p :: p in projects ==> p.id != id
  {
    if projects == [] then None
    else if projects[0].id == id then Some(projects[0])
    else
      assert forall p :: p in projects[1..] ==> p in projects;
      assert forall p :: p in projects ==> p == projects[0] || p in projects[1..];
      ProjectById(projects[1..], id)
  }

  lemma ProjectReadBack(projects: seq<Project>, p: Project)
    requires forall q :: q in projects ==> q.id != p.id
    ensures ProjectById(projects + [p], p.id) == Some(p)
  {
    if projects != [] {
      assert (projects + [p])[1..] == projects[1..] + [p];
      ProjectReadBack(projects[1..], p);
    }
  }

  // ---------------------------------------------------------------------
  // Project creation
  // ---------------------------------------------------------------------

  /** The project row a valid `POST /api/projects` inserts; `description || null`. */
  function NewProject(title: string, description: Option<string>, id: string, now: int): Project {
    Project(id, title, if Truthy(description) then description else None, now, now)
  }

  /** The chapter created with every project. */
  function FirstChapter(projectId: string, id: string, now: int): Chapter {
    Chapter(id, projectId, "Chapter 1", "", 0, 0, now, now)
  }

  /** A new project (whose id no chapter uses yet) has exactly its first
      chapter, and the next chapter added to it without a title becomes
      "Chapter 2" at order 1. */
  lemma NewProjectChapters(chapters: seq<Chapter>, projectId: string, chapterId: string, now: int, nextId: string, later: int)
    requires forall c :: c in chapters ==> c.projectId != projectId
    ensures ProjectChapters(chapters + [FirstChapter(projectId, chapterId, now)], projectId) == [FirstChapter(projectId, chapterId, now)]
    ensures var next := NewChapter(chapters + [FirstChapter(projectId, chapterId, now)], projectId, None, nextId, later);
            next.order == 1 && next.title == "Chapter 2"
  {
    var first := FirstChapter(projectId, chapterId, now);
    ProjectChaptersSnoc(chapters, first, projectId);
    NoProjectChapters(chapters, projectId);
    assert NatToString(2) == "2";
  }

  // ---------------------------------------------------------------------
  // Listing
  // ---------------------------------------------------------------------

  predicate Ascending(ps: seq<Project>) {
    forall i, j :: 0 <= i < j < |ps| ==> ps[i].updatedAt <= ps[j].updatedAt
  }

  predicate Descending(ps: seq<Project>) {
    forall i, j :: 0 <= i < j < |ps| ==> ps[i].updatedAt >= ps[j].updatedAt
  }

  /** Inserts `p` before the first row that is not older than it. */
  function Insert(p: Project, sorted: seq<Project>): (r: seq<Project>)
    ensures multiset(r) == multiset(sorted) + multiset{p}
    ensures |r| == |sorted| + 1
  {
    if sorted == [] || p.updatedAt <= sorted[0].updatedAt then [p] + sorted
    else
      assert sorted == [sorted[0]] + sorted[1..];
      [sorted[0]] + Insert(p, sorted[1..])
  }

  lemma {:induction false} InsertAscending(p: Project, sorted: seq<Project>)
    requires Ascending(sorted)
    ensures Ascending(Insert(p, sorted))
  {
    if sorted != [] && p.updatedAt > sorted[0].updatedAt {
      InsertAscending(p, sorted[1..]);
      InsertBounded(p, sorted[1..], sorted[0].updatedAt);
    }
  }

  /** A lower bound on `p` and on every row holds for every row after the insertion. */
  lemma {:induction false} InsertBounded(p: Project, sorted: seq<Project>, lo: int)
    requires lo <= p.updatedAt
    requires forall k :: 0 <= k < |sorted| ==> lo <= sorted[k].updatedAt
    ensures forall k :: 0 <= k < |Insert(p, sorted)| ==> lo <= Insert(p, sorted)[k].updatedAt
  {
    if sorted != [] && p.updatedAt > sorted[0].updatedAt {
      InsertBounded(p, sorted[1..], lo);
    }
  }

  /** `orderBy(projects.updatedAt)`: an insertion sort, oldest first. */
  function SortByUpdated(ps: seq<Project>): (r: seq<Project>)
    ensures multiset(r) == multiset(ps)
  {
    if ps == [] then []
    else
      assert ps == [ps[0]] + ps[1..];
      Insert(ps[0], SortByUpdated(ps[1..]))
  }

  lemma {:induction false} SortAscending(ps: seq<Project>)
    ensures Ascending(SortByUpdated(ps))
  {
    if ps != [] {
      SortAscending(ps[1..]);
      InsertAscending(ps[0], SortByUpdated(ps[1..]));
    }
  }

  /** The rows in the opposite order. */
  function Reversed(ps: seq<Project>): (r: seq<Project>)
    ensures |r| == |ps|
    ensures forall i :: 0 <= i < |ps| ==> r[i] == ps[|ps| - 1 - i]
  {
    seq(|ps|, i requires 0 <= i < |ps| => ps[|ps| - 1 - i])
  }

  /** Reversing keeps the rows and turns oldest-first into newest-first. */
  lemma ReversedDescending(ps: seq<Project>)
    requires Ascending(ps)
    ensures Descending(Reversed(ps))
    ensures multiset(Reversed(ps)) == multiset(ps)
  {
    if ps != [] {
      var r := Reversed(ps);
      assert r == [ps[|ps| - 1]] + Reversed(ps[..|ps| - 1]);
      ReversedDescending(ps[..|ps| - 1]);
      assert ps == ps[..|ps| - 1] + [ps[|ps| - 1]];
    }
  }

  /** The listing: every project exactly once, newest first. */
  lemma ListingNewestFirst(ps: seq<Project>)
    ensures Descending(Reversed(SortByUpdated(ps)))
    ensures multiset(Reversed(SortByUpdated(ps))) == multiset(ps)
  {
    SortAscending(ps);
    ReversedDescending(SortByUpdated(ps));
  }

  // ---------------------------------------------------------------------
  // The tables and the routes
  // ---------------------------------------------------------------------

  class Database {
    var projects: seq<Project>
    var chapters: seq<Chapter>

    constructor(projects: seq<Project>, chapters: seq<Chapter>)
      ensures this.projects == projects && this.chapters == chapters
    {
      this.projects := projects;
      this.chapters := chapters;
    }

    /** `POST /api/chapters`. Without a project id nothing is written. A
        chapter id already in the table makes the insert fail on the primary
        key, and a project id that names no project fails the foreign key
        `chapters.project_id -> projects.id`: 500 and nothing written either
        way. Otherwise one chapter is appended, the project is touched, and
        the reply is the chapter just inserted. */
    method CreateChapter(body: Outcome<ChapterBody>, chapterId: string, now: int) returns (reply: Reply<Option<Chapter>>)
      modifies this
      ensures body.Threw? ==> reply == ErrorJson(500, "Failed to create chapter")
      ensures body.Returned? && !Truthy(body.value.projectId) ==> reply == ErrorJson(400, "Project ID is required")
      ensures body.Returned? && Truthy(body.value.projectId) && ChapterById(old(chapters), chapterId).Some? ==>
                reply == ErrorJson(500, "Failed to create chapter")
      ensures body.Returned? && Truthy(body.value.projectId) && ProjectById(old(projects), body.value.projectId.value).None? ==>
                reply == ErrorJson(500, "Failed to create chapter")
      ensures !reply.Json? ==> projects == old(projects) && chapters == old(chapters)
      ensures reply.Json? <==> && body.Returned? && Truthy(body.value.projectId)
                               && ChapterById(old(chapters), chapterId).None?
                               && ProjectById(old(projects), body.value.projectId.value).Some?
      ensures reply.Json? ==>
                var c := NewChapter(old(chapters), body.value.projectId.value, body.value.title, chapterId, now);
                && chapters == old(chapters) + [c]
                && projects == Touch(old(projects), c.projectId, now)
                && reply == Json(201, Some(c))
    {
      if body.Threw? {
        return ErrorJson(500, "Failed to create chapter");
      }
      var projectId := body.value.projectId;
      if !Truthy(projectId) {
        return ErrorJson(400, "Project ID is required");
      }
      var existing := ProjectChapters(chapters, projectId.value);
      var maxOrder := if |existing| > 0 then MaxOrder(existing) else -1;
      if ChapterById(chapters, chapterId).Some? || ProjectById(projects, projectId.value).None? {
        return ErrorJson(500, "Failed to create chapter");
      }
      var chapter := Chapter(chapterId, projectId.value, ChapterTitle(body.value.title, |existing|), "", maxOrder + 1, 0, now, now);
      assert chapter == NewChapter(chapters, projectId.value, body.value.title, chapterId, now);
      ChapterReadBack(chapters, chapter);
      chapters := chapters + [chapter];
      projects := Touch(projects, projectId.value, now);
      reply := Json(201, ChapterById(chapters, chapterId));
    }

    /** `POST /api/projects`. Without a title nothing is written. The two
        inserts are separate statements: a project id already in use fails
        the first (nothing written), a chapter id already in use fails the
        second after the project row is in (500 either way). Otherwise one
        project and its first chapter are appended, stamped with the same
        `now`, and the reply carries the project just inserted. */
    method CreateProject(body: Outcome<ProjectBody>, projectId: string, chapterId: string, now: int)
      returns (reply: Reply<CreatedProject>)
      modifies this
      ensures body.Threw? ==> reply == ErrorJson(500, "Failed to create project")
      ensures body.Returned? && !Truthy(body.value.title) ==> reply == ErrorJson(400, "Title is required")
      ensures body.Threw? || !Truthy(body.value.title) || ProjectById(old(projects), projectId).Some? ==>
                projects == old(projects) && chapters == old(chapters)
      ensures body.Returned? && Truthy(body.value.title) && ProjectById(old(projects), projectId).Some? ==>
                reply == ErrorJson(500, "Failed to create project")
      ensures body.Returned? && Truthy(body.value.title) && ProjectById(old(projects), projectId).None?
              && ChapterById(old(chapters), chapterId).Some? ==>
                && reply == ErrorJson(500, "Failed to create project")
                && projects == old(projects) + [NewProject(body.value.title.value, body.value.description, projectId, now)]
                && chapters == old(chapters)
      ensures reply.Json? <==> && body.Returned? && Truthy(body.value.title)
                               && ProjectById(old(projects), projectId).None? && ChapterById(old(chapters), chapterId).None?
      ensures reply.Json? ==>
                var p := NewProject(body.value.title.value, body.value.description, projectId, now);
                && projects == old(projects) + [p]
                && chapters == old(chapters) + [FirstChapter(projectId, chapterId, now)]
                && reply == Json(201, CreatedProject(Some(p), chapterId))
    {
      if body.Threw? {
        return ErrorJson(500, "Failed to create project");
      }
      var title := body.value.title;
      if !Truthy(title) {
        return ErrorJson(400, "Title is required");
      }
      if ProjectById(projects, projectId).Some? {
        return ErrorJson(500, "Failed to create project");
      }
      var project := Project(projectId, title.value, if Truthy(body.value.description) then body.value.description else None, now, now);
      ProjectReadBack(projects, project);
      projects := projects + [project];
      if ChapterById(chapters, chapterId).Some? {
        return ErrorJson(500, "Failed to create project");
      }
      chapters := chapters + [Chapter(chapterId, projectId, "Chapter 1", "", 0, 0, now, now)];
      reply := Json(201, CreatedProject(ProjectById(projects, projectId), chapterId));
    }

    /** `GET /api/projects`: the sorted rows, reversed in place. */
    method ListProjects() returns (list: seq<Project>)
      ensures list == Reversed(SortByUpdated(projects))
      ensures Descending(list) && multiset(list) == multiset(projects)
    {
      var sorted := SortByUpdated(projects);
      var a := new Project[|sorted|](i requires 0 <= i < |sorted| => sorted[i]);
      assert a[..] == sorted;
      ReverseInPlace(a);
      list := a[..];
      assert list == Reversed(sorted);
      ListingNewestFirst(projects);
    }
  }

  /** `Array.prototype.reverse`: swaps from both ends towards the middle. */
  method ReverseInPlace(a: array<Project>)
    modifies a
    ensures a[..] == Reversed(old(a[..]))
  {
    ghost var rows := a[..];
    var i := 0;
    while i < a.Length - 1 - i
      invariant 0 <= i <= a.Length - i
      invariant forall k :: 0 <= k < i ==> a[k] == rows[a.Length - 1 - k]
      invariant forall k :: a.Length - i <= k < a.Length ==> a[k] == rows[a.Length - 1 - k]
      invariant forall k :: i <= k < a.Length - i ==> a[k] == rows[k]
    {
      a[i], a[a.Length - 1 - i] := a[a.Length - 1 - i], a[i];
      i := i + 1;
    }
    assert forall k :: 0 <= k < a.Length ==> a[k] == rows[a.Length - 1 - k];
  }
}
