/**
 * The JSON store of `backend/file_manager.py`: the page files as a map from
 * page id to page, and the maindata tag list. Operations that save a page
 * or maindata are methods of `Store` that update those fields.
 */
module FileManager {
  import opened Wrappers
  import opened Strings
  import opened Seqs
  import opened Json
  import opened Entities
  import TaskDates

  /** A page file: its id, its name and its list of task records. */
  datatype Page = Page(id: string, name: string, tasks: seq<Record>)

  /** The fields `create_task` copies from the request body, each with a default. */
  const TaskFields: set<string> := {"title", "description", "tags", "timestamp", "status"}

  function TaskDefaults(today: string): (d: Record)
    ensures d.Keys == TaskFields
  {
    map["title" := Str(""), "description" := Str(""), "tags" := Arr([]),
        "timestamp" := Str(today), "status" := Str("todo")]
  }

  /**
   * The record `create_task` builds: a fresh id and the five task fields,
   * each taken from the body when present and defaulted otherwise; any
   * other field of the body, including an `id`, is dropped.
   */
  function NewTask(data: Record, freshId: string, today: string): (t: Record)
    ensures t.Keys == TaskFields + {"id"}
    ensures t["id"] == Str(freshId)
    ensures forall k :: k in TaskFields && k in data ==> t[k] == data[k]
    ensures "title" !in data ==> t["title"] == Str("")
    ensures "description" !in data ==> t["description"] == Str("")
    ensures "tags" !in data ==> t["tags"] == Arr([])
    ensures "timestamp" !in data ==> t["timestamp"] == Str(today)
    ensures "status" !in data ==> t["status"] == Str("todo")
  {
    var d := TaskDefaults(today);
    (map k | k in TaskFields :: if k in data then data[k] else d[k])["id" := Str(freshId)]
  }

  /** The task's timestamp text (`task.get("timestamp", "")`). */
  function TimestampOf(task: Record): string {
    StrField(task, "timestamp")
  }

  /** A status the overdue pass never rewrites. */
  predicate IsClosed(task: Record) {
    "status" in task && (task["status"] == Str("completed") || task["status"] == Str("overdue"))
  }

  /** One task of the overdue pass: a non-empty end date before today on an open task becomes "overdue". */
  function MarkOverdue(task: Record, today: string): (r: Record)
    ensures r == task || r == task["status" := Str("overdue")]
    ensures r != task ==> r["status"] == Str("overdue")
    ensures IsClosed(task) ==> r == task
    ensures r != task ==>
      var end := TaskDates.EndDate(TimestampOf(task));
      end != "" && StrLess(end, today)
    ensures
      var end := TaskDates.EndDate(TimestampOf(task));
      !IsClosed(task) && end != "" && StrLess(end, today) ==> r == task["status" := Str("overdue")]
  {
    var end := TaskDates.EndDate(TimestampOf(task));
    if end != "" && StrLess(end, today) && !IsClosed(task) then task["status" := Str("overdue")]
    else task
  }

  function MarkAllOverdue(tasks: seq<Record>, today: string): (r: seq<Record>)
    ensures |r| == |tasks|
    ensures forall i :: 0 <= i < |tasks| ==> r[i] == MarkOverdue(tasks[i], today)
  {
    seq(|tasks|, i requires 0 <= i < |tasks| => MarkOverdue(tasks[i], today))
  }

  /** A second overdue pass with the same day changes nothing. */
  lemma MarkAllOverdueIdempotent(tasks: seq<Record>, today: string)
    ensures MarkAllOverdue(MarkAllOverdue(tasks, today), today) == MarkAllOverdue(tasks, today)
  {
    var once := MarkAllOverdue(tasks, today);
    forall i | 0 <= i < |tasks| ensures MarkOverdue(once[i], today) == once[i] {
      if once[i] != tasks[i] {
        assert IsClosed(once[i]);
      }
    }
  }

  // ---------------------------------------------------------------------
  // Tags: the maindata list, and `{tag['id']: tag for tag in tags}`.

  /** The ids of the tags. */
  function IdsOf(tags: seq<Tag>): set<string> {
    if tags == [] then {} else IdsOf(tags[..|tags| - 1]) + {tags[|tags| - 1].id}
  }

  predicate UniqueIds(tags: seq<Tag>) {
    forall i, j :: 0 <= i < j < |tags| ==> tags[i].id != tags[j].id
  }

  lemma {:induction false} IdsOfMember(tags: seq<Tag>, x: string)
    ensures x in IdsOf(tags) <==> exists i :: 0 <= i < |tags| && tags[i].id == x
  {
    if tags != [] {
      var init := tags[..|tags| - 1];
      IdsOfMember(init, x);
      if x in IdsOf(init) {
        var i :| 0 <= i < |init| && init[i].id == x;
        assert tags[i].id == x;
      }
      if exists i :: 0 <= i < |tags| && tags[i].id == x {
        var i :| 0 <= i < |tags| && tags[i].id == x;
        if i < |init| {
          assert init[i].id == x;
        }
      }
    }
  }

  lemma {:induction false} IdsOfAppend(a: seq<Tag>, b: seq<Tag>)
    ensures IdsOf(a + b) == IdsOf(a) + IdsOf(b)
  {
    if b == [] {
      assert a + b == a;
    } else {
      IdsOfAppend(a, b[..|b| - 1]);
      assert (a + b)[..|a + b| - 1] == a + b[..|b| - 1];
    }
  }

  /** Ids are distinct exactly when there are as many ids as tags. */
  lemma {:induction false} UniqueIdsCard(tags: seq<Tag>)
    requires UniqueIds(tags)
    ensures |IdsOf(tags)| == |tags|
  {
    if tags != [] {
      var init := tags[..|tags| - 1];
      var last := tags[|tags| - 1];
      UniqueIdsCard(init);
      IdsOfMember(init, last.id);
    }
  }

  /** An update that keeps a tag's id keeps the set of ids. */
  lemma IdsOfReplace(tags: seq<Tag>, i: nat, t: Tag)
    requires i < |tags| && tags[i].id == t.id
    ensures IdsOf(tags[i := t]) == IdsOf(tags)
  {
    var r := tags[i := t];
    forall x ensures x in IdsOf(r) <==> x in IdsOf(tags) {
      IdsOfMember(r, x);
      IdsOfMember(tags, x);
      if x in IdsOf(r) {
        var j :| 0 <= j < |r| && r[j].id == x;
        assert tags[j].id == x;
      }
      if x in IdsOf(tags) {
        var j :| 0 <= j < |tags| && tags[j].id == x;
        assert r[j].id == x;
      }
    }
  }

  /** The position of the first tag with that id. */
  function TagIndex(tags: seq<Tag>, id: string): (r: Option<nat>)
    ensures r.Some? ==> r.value < |tags| && tags[r.value].id == id
    ensures r.Some? ==> forall j :: 0 <= j < r.value ==> tags[j].id != id
    ensures r.None? <==> id !in IdsOf(tags)
  {
    IdsOfMember(tags, id);
    FirstIndex(tags, (t: Tag) => t.id == id)
  }

  /**
   * `d[t.id] = t` on an insertion-ordered dict kept as a list: an existing
   * key keeps its place and takes the new value, a new key goes last.
   */
  function DictPut(d: seq<Tag>, t: Tag): (r: seq<Tag>)
    requires UniqueIds(d)
    ensures UniqueIds(r)
    ensures IdsOf(r) == IdsOf(d) + {t.id}
    ensures t in r
    ensures forall u :: u in r ==> u == t || u in d
    ensures t.id !in IdsOf(d) ==> r == d + [t]
  {
    match TagIndex(d, t.id)
    case Some(i) =>
      IdsOfReplace(d, i, t);
      assert d[i := t][i] == t;
      d[i := t]
    case None =>
      IdsOfAppend(d, [t]);
      assert [t][..0] == [];
      forall j | 0 <= j < |d| ensures d[j].id != t.id {
        IdsOfMember(d, t.id);
      }
      d + [t]
  }

  /** `{tag['id']: tag for tag in tags}`: one entry per distinct id, the last tag with it winning. */
  function TagDict(tags: seq<Tag>): (r: seq<Tag>)
    ensures UniqueIds(r)
    ensures IdsOf(r) == IdsOf(tags)
    ensures |r| == |IdsOf(tags)|
    ensures forall u :: u in r ==> u in tags
  {
    if tags == [] then []
    else
      var r := DictPut(TagDict(tags[..|tags| - 1]), tags[|tags| - 1]);
      UniqueIdsCard(r);
      r
  }

  /** On a list whose ids are already distinct the dict is the list itself. */
  lemma {:induction false} TagDictOfUnique(tags: seq<Tag>)
    requires UniqueIds(tags)
    ensures TagDict(tags) == tags
  {
    if tags != [] {
      var init := tags[..|tags| - 1];
      var last := tags[|tags| - 1];
      assert UniqueIds(init) by {
        forall i, j | 0 <= i < j < |init| ensures init[i].id != init[j].id {
          assert init[i] == tags[i] && init[j] == tags[j];
        }
      }
      TagDictOfUnique(init);
      forall i | 0 <= i < |init| ensures init[i].id != last.id {
        assert init[i] == tags[i];
      }
      IdsOfMember(init, last.id);
      assert TagDict(tags) == DictPut(init, last);
      assert tags == init + [last];
    }
  }

  /** The id `sync_tags_from_page` derives from a tag name: lower case, each ' ' replaced by '-'. */
  function PyTagId(name: string): (id: string)
    ensures |id| == |name|
    ensures ' ' !in id
  {
    ReplaceChar(Lower(name), ' ', '-')
  }

  /** The string tag names of one task (`task.get('tags', [])`). */
  function TagNamesOf(task: Record): set<string> {
    if "tags" in task && task["tags"].Arr? then
      set v | v in task["tags"].items && v.Str? :: v.s
    else {}
  }

  /** The set of tag names used by any task of the page. */
  function PageTagNames(tasks: seq<Record>): set<string> {
    if tasks == [] then {} else PageTagNames(tasks[..|tasks| - 1]) + TagNamesOf(tasks[|tasks| - 1])
  }

  datatype SyncReport = SyncReport(added: seq<Tag>, total: nat)

  /** `update_tag`'s body: `name` and `color` when the update has them. */
  datatype TagUpdate = TagUpdate(name: Option<string>, color: Option<string>)

  function ApplyTagUpdate(t: Tag, u: TagUpdate): Tag {
    Tag(t.id, u.name.GetOr(t.name), u.color.GetOr(t.color))
  }

  /** One addition of `sync_tags_from_page`: a tag with a new id goes last. */
  lemma AddNewTag(base: seq<Tag>, added: seq<Tag>, t: Tag)
    requires UniqueIds(base + added)
    requires t.id !in IdsOf(base + added)
    ensures DictPut(base + added, t) == base + (added + [t])
    ensures UniqueIds(base + (added + [t]))
    ensures IdsOf(added + [t]) == IdsOf(added) + {t.id}
  {
    assert (base + added) + [t] == base + (added + [t]);
    assert (added + [t])[..|added|] == added;
  }

  /** A tag the sync adds: named after a page tag, with its derived id, grey, and an id not already present. */
  predicate IsSyncedTag(t: Tag, names: set<string>, existing: seq<Tag>) {
    t.name in names && t.id == PyTagId(t.name) && t.color == "#808080" && t.id !in IdsOf(existing)
  }

  /** The loop body for a name whose id is new: the grey tag goes last and the loop's facts still hold. */
  lemma SyncStep(existing: seq<Tag>, added: seq<Tag>, names: set<string>, n: string)
    requires UniqueIds(existing + added)
    requires IdsOf(existing + added) == IdsOf(existing) + IdsOf(added)
    requires forall t :: t in added ==> IsSyncedTag(t, names, existing)
    requires n in names && PyTagId(n) !in IdsOf(existing + added)
    ensures var more := added + [Tag(PyTagId(n), n, "#808080")];
      && UniqueIds(existing + more)
      && IdsOf(existing + more) == IdsOf(existing) + IdsOf(more)
      && IdsOf(more) == IdsOf(added) + {PyTagId(n)}
      && forall t :: t in more ==> IsSyncedTag(t, names, existing)
  {
    var t := Tag(PyTagId(n), n, "#808080");
    AddNewTag(existing, added, t);
    IdsOfAppend(existing, added + [t]);
  }

  /**
   * The loop of `sync_tags_from_page` over the page's tag names: a grey tag
   * for each name whose id is not yet among `existing` (nor added before
   * it). The names are a set, so the order is left open.
   */
  method NewTagsFor(existing: seq<Tag>, names: set<string>) returns (added: seq<Tag>)
    requires UniqueIds(existing)
    ensures UniqueIds(existing + added)
    ensures forall n :: n in names ==> PyTagId(n) in IdsOf(existing) + IdsOf(added)
    ensures forall t :: t in added ==>
      t.name in names && t.id == PyTagId(t.name) && t.color == "#808080" && t.id !in IdsOf(existing)
  {
    var todo := names;
    added := [];
    assert existing + [] == existing;
    while todo != {}
      invariant todo <= names
      invariant UniqueIds(existing + added)
      invariant IdsOf(existing + added) == IdsOf(existing) + IdsOf(added)
      invariant forall n :: n in names && n !in todo ==> PyTagId(n) in IdsOf(existing) + IdsOf(added)
      invariant forall t :: t in added ==> IsSyncedTag(t, names, existing)
      decreases todo
    {
      var n :| n in todo;
      var id := PyTagId(n);
      if id !in IdsOf(existing + added) {
        SyncStep(existing, added, names, n);
        added := added + [Tag(id, n, "#808080")];
      }
      todo := todo - {n};
    }
  }

  // ---------------------------------------------------------------------
  // Import

  /** The parts of an imported page object that `import_page_from_json` reads. */
  datatype PageImport = PageImport(id: Option<string>, name: Option<string>, tasks: seq<Record>)

  /**
   * The imported task list: a task without an `id` gets fresh id number
   * 2 + its position; every other task is kept as it is.
   */
  function ImportedTasks(tasks: seq<Record>, uuids: nat -> string): (r: seq<Record>)
    ensures |r| == |tasks|
    ensures forall i :: 0 <= i < |r| ==> "id" in r[i]
    ensures forall i :: 0 <= i < |r| && "id" in tasks[i] ==> r[i] == tasks[i]
    ensures forall i :: 0 <= i < |r| && "id" !in tasks[i] ==> r[i] == tasks[i]["id" := Str(uuids(2 + i))]
  {
    seq(|tasks|, i requires 0 <= i < |tasks| =>
      if "id" in tasks[i] then tasks[i] else tasks[i]["id" := Str(uuids(2 + i))])
  }

  /** The inner loop of `update_overdue_tasks`: one page's tasks, and whether any changed. */
  method MarkPageTasks(tasks0: seq<Record>, today: string) returns (tasks: seq<Record>, updated: bool)
    ensures tasks == MarkAllOverdue(tasks0, today)
    ensures updated <==> tasks != tasks0
  {
    tasks, updated := tasks0, false;
    var i := 0;
    while i < |tasks|
      invariant 0 <= i <= |tasks| == |tasks0|
      invariant forall j :: 0 <= j < |tasks| ==>
        tasks[j] == if j < i then MarkOverdue(tasks0[j], today) else tasks0[j]
      invariant updated <==> tasks != tasks0
    {
      var end := TaskDates.EndDate(TimestampOf(tasks[i]));
      if end != "" && StrLess(end, today) && !IsClosed(tasks[i]) {
        assert tasks[i] == tasks0[i];
        tasks := tasks[i := tasks[i]["status" := Str("overdue")]];
        assert tasks[i] != tasks0[i];
        updated := true;
      }
      i := i + 1;
    }
  }

  // ---------------------------------------------------------------------
  // The store

  class Store {
    var pages: map<string, Page>
    var tags: seq<Tag>

    constructor (pages0: map<string, Page>, tags0: seq<Tag>)
      ensures pages == pages0 && tags == tags0
    {
      pages := pages0;
      tags := tags0;
    }

    /** `create_task`: None on a missing page; otherwise one new task appended at the end. */
    method CreateTask(pageId: string, data: Record, freshId: string, today: string) returns (r: Option<Record>)
      modifies this
      ensures tags == old(tags)
      ensures pageId !in old(pages) ==> r == None && pages == old(pages)
      ensures pageId in old(pages) ==>
        r == Some(NewTask(data, freshId, today)) &&
        pages == old(pages)[pageId := old(pages)[pageId].(tasks := old(pages)[pageId].tasks + [r.value])]
    {
      if pageId !in pages {
        return None;
      }
      var page := pages[pageId];
      var task := NewTask(data, freshId, today);
      page := page.(tasks := page.tasks + [task]);
      pages := pages[pageId := page];
      r := Some(task);
    }

    /** `update_task`: merges the updates into the first task with that id. */
    method UpdateTask(pageId: string, taskId: string, updates: Record) returns (ok: bool)
      modifies this
      ensures tags == old(tags)
      ensures pageId !in old(pages) ==> !ok && pages == old(pages)
      ensures pageId in old(pages) ==>
        var ts := old(pages)[pageId].tasks;
        match IndexOfId(ts, taskId)
        case None => !ok && pages == old(pages)
        case Some(i) => ok && pages == old(pages)[pageId := old(pages)[pageId].(tasks := ts[i := ts[i] + updates])]
    {
      if pageId !in pages {
        return false;
      }
      var page := pages[pageId];
      var i := 0;
      while i < |page.tasks|
        invariant 0 <= i <= |page.tasks|
        invariant forall j :: 0 <= j < i ==> !HasId(page.tasks[j], taskId)
      {
        if HasId(page.tasks[i], taskId) {
          assert IndexOfId(page.tasks, taskId) == Some(i);
          page := page.(tasks := page.tasks[i := page.tasks[i] + updates]);
          pages := pages[pageId := page];
          return true;
        }
        i := i + 1;
      }
      return false;
    }

    /** `delete_task`: drops every task with that id; only a missing page fails. */
    method DeleteTask(pageId: string, taskId: string) returns (ok: bool)
      modifies this
      ensures tags == old(tags)
      ensures ok <==> pageId in old(pages)
      ensures !ok ==> pages == old(pages)
      ensures ok ==> pages == old(pages)[pageId := old(pages)[pageId].(tasks := WithoutId(old(pages)[pageId].tasks, taskId))]
    {
      if pageId !in pages {
        return false;
      }
      var page := pages[pageId];
      page := page.(tasks := WithoutId(page.tasks, taskId));
      pages := pages[pageId := page];
      return true;
    }

    /**
     * `import_page_from_json`. `uuids(n)` is the n-th uuid drawn: number 0
     * is drawn as the default id whether or not the data has one, number 1
     * replaces an id that is already taken, and the tasks draw from 2 on.
     */
    method ImportPage(data: PageImport, uuids: nat -> string) returns (r: Option<Page>)
      modifies this
      ensures tags == old(tags)
      ensures data.name.None? <==> r.None?
      ensures r.None? ==> pages == old(pages)
      ensures r.Some? ==>
        pages == old(pages)[r.value.id := r.value] &&
        r.value.name == data.name.value &&
        r.value.tasks == ImportedTasks(data.tasks, uuids)
      ensures r.Some? && data.id.Some? ==>
        r.value.id == (if data.id.value in old(pages) then uuids(1) else data.id.value)
      ensures r.Some? && data.id.None? ==>
        r.value.id == (if uuids(0) in old(pages) then uuids(1) else uuids(0))
    {
      if data.name.None? {
        return None;
      }
      var pageId := data.id.GetOr(uuids(0));
      if pageId in pages {
        pageId := uuids(1);
      }
      var tasks := data.tasks;
      var i := 0;
      while i < |tasks|
        invariant 0 <= i <= |tasks| == |data.tasks|
        invariant forall j :: 0 <= j < |tasks| ==>
          tasks[j] == if j < i then ImportedTasks(data.tasks, uuids)[j] else data.tasks[j]
      {
        if "id" !in tasks[i] {
          tasks := tasks[i := tasks[i]["id" := Str(uuids(2 + i))]];
        }
        i := i + 1;
      }
      assert tasks == ImportedTasks(data.tasks, uuids);
      var page := Page(pageId, data.name.value, tasks);
      pages := pages[pageId := page];
      r := Some(page);
    }

    /** `update_overdue_tasks`: the overdue pass over every page, saving only pages that changed. */
    method UpdateOverdueTasks(today: string)
      modifies this
      ensures tags == old(tags)
      ensures pages.Keys == old(pages).Keys
      ensures forall k :: k in pages ==>
        pages[k] == old(pages)[k].(tasks := MarkAllOverdue(old(pages)[k].tasks, today))
    {
      var todo := pages.Keys;
      while todo != {}
        invariant todo <= pages.Keys == old(pages).Keys
        invariant tags == old(tags)
        invariant forall k :: k in pages && k !in todo ==>
          pages[k] == old(pages)[k].(tasks := MarkAllOverdue(old(pages)[k].tasks, today))
        invariant forall k :: k in todo ==> pages[k] == old(pages)[k]
        decreases todo
      {
        var k :| k in todo;
        var page := pages[k];
        var tasks, updated := MarkPageTasks(page.tasks, today);
        if updated {
          pages := pages[k := page.(tasks := tasks)];
        }
        todo := todo - {k};
      }
    }

    /**
     * `sync_tags_from_page`: every tag name used on the page ends up with
     * its id among the tags; ids not yet present are added in grey; the
     * tag list is rewritten (as the dict's values) only when something was
     * added. The page's tag names form a set, so the order of additions is
     * left open.
     */
    method SyncTagsFromPage(pageId: string) returns (r: Result<SyncReport, string>)
      modifies this
      ensures pages == old(pages)
      ensures pageId !in old(pages) <==> r.Err?
      ensures r.Err? ==> r.error == "Page not found" && tags == old(tags)
      ensures r.Ok? ==>
        var added := r.value.added;
        var names := PageTagNames(old(pages)[pageId].tasks);
        (added == [] ==> tags == old(tags)) &&
        (added != [] ==> tags == TagDict(old(tags)) + added) &&
        UniqueIds(TagDict(old(tags)) + added) &&
        (forall n :: n in names ==> PyTagId(n) in IdsOf(old(tags)) + IdsOf(added)) &&
        (forall t :: t in added ==>
          t.name in names && t.id == PyTagId(t.name) && t.color == "#808080" && t.id !in IdsOf(old(tags))) &&
        r.value.total == |IdsOf(old(tags)) + IdsOf(added)|
    {
      if pageId !in pages {
        return Err("Page not found");
      }
      var base := TagDict(tags);
      var added := NewTagsFor(base, PageTagNames(pages[pageId].tasks));
      var existing := base + added;
      UniqueIdsCard(existing);
      IdsOfAppend(base, added);
      if added != [] {
        tags := existing;
      }
      r := Ok(SyncReport(added, |existing|));
    }

    /** `update_tag`: name and color of the first tag with that id, or "Tag not found". */
    method UpdateTag(tagId: string, u: TagUpdate) returns (r: Result<seq<Tag>, string>)
      modifies this
      ensures pages == old(pages)
      ensures match TagIndex(old(tags), tagId)
        case None => r == Err("Tag not found") && tags == old(tags)
        case Some(i) => tags == old(tags)[i := ApplyTagUpdate(old(tags)[i], u)] && r == Ok(tags)
    {
      var i := 0;
      while i < |tags|
        invariant 0 <= i <= |tags|
        invariant pages == old(pages) && tags == old(tags)
        invariant forall j :: 0 <= j < i ==> tags[j].id != tagId
      {
        if tags[i].id == tagId {
          assert TagIndex(tags, tagId) == Some(i);
          tags := tags[i := ApplyTagUpdate(tags[i], u)];
          return Ok(tags);
        }
        i := i + 1;
      }
      IdsOfMember(tags, tagId);
      return Err("Tag not found");
    }
  }
}
