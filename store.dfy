/** The two MongoDB collections the controllers work on, held in memory:
    task and project documents, the object ids the database hands out
    (modelled as numbers from a counter), and the query primitives the
    controllers use (owner filters, lookup by id and owner, `deleteMany`,
    and sorting by a key in descending order). */
module Store {
  import opened Wrappers

  datatype TaskDoc = TaskDoc(id: nat, title: string, description: Option<string>, date: int,
                             isCompleted: bool, user: nat, project: Option<nat>)

  datatype ProjectDoc = ProjectDoc(id: nat, name: string, owner: nat, color: string, createdAt: int)

  /** An HTTP answer: its status, the `message` of its JSON body when it
      has one, and the document or value it carries. */
  datatype Reply<T> = Reply(status: int, message: Option<string>, body: Option<T>)

  function TaskDate(t: TaskDoc): int { t.date }

  function ProjectCreatedAt(p: ProjectDoc): int { p.createdAt }

  // ---------------------------------------------------------------------
  // `.sort('-key')`

  predicate Descending<T>(xs: seq<T>, key: T -> int)
  {
    forall i, j :: 0 <= i < j < |xs| ==> key(xs[i]) >= key(xs[j])
  }

  /** x placed into a list before the first element whose key is not
      above its own. */
  function Insert<T>(x: T, xs: seq<T>, key: T -> int): seq<T>
    decreases |xs|
  {
    if xs == [] || key(x) >= key(xs[0]) then [x] + xs
    else [xs[0]] + Insert(x, xs[1..], key)
  }

  /** Inserting adds exactly the one element. */
  lemma {:induction false} InsertCounts<T>(x: T, xs: seq<T>, key: T -> int)
    ensures multiset(Insert(x, xs, key)) == multiset(xs) + multiset{x}
    decreases |xs|
  {
    if !(xs == [] || key(x) >= key(xs[0])) {
      InsertCounts(x, xs[1..], key);
      assert xs == [xs[0]] + xs[1..];
    }
  }

  /** Inserting into a descending list keeps it descending. */
  lemma {:induction false} InsertDescending<T>(x: T, xs: seq<T>, key: T -> int)
    requires Descending(xs, key)
    ensures Descending(Insert(x, xs, key), key)
    decreases |xs|
  {
    var r := Insert(x, xs, key);
    if xs == [] || key(x) >= key(xs[0]) {
      assert forall j :: 0 < j < |r| ==> r[j] == xs[j - 1];
    } else {
      var tail := xs[1..];
      var rest := Insert(x, tail, key);
      InsertDescending(x, tail, key);
      InsertCounts(x, tail, key);
      forall j | 0 <= j < |rest|
        ensures key(xs[0]) >= key(rest[j])
      {
        assert rest[j] in multiset(rest);
        if rest[j] != x {
          assert rest[j] in multiset(tail);
          var k :| 0 <= k < |tail| && tail[k] == rest[j];
          assert xs[k + 1] == rest[j];
        }
      }
      assert forall j :: 0 < j < |r| ==> r[j] == rest[j - 1];
    }
  }

  /** The list in descending order of the key: a permutation of it. */
  function SortDesc<T>(xs: seq<T>, key: T -> int): (r: seq<T>)
    ensures multiset(r) == multiset(xs)
    ensures |r| == |xs|
    ensures Descending(r, key)
    decreases |xs|
  {
    if xs == [] then []
    else
      var sorted := SortDesc(xs[1..], key);
      InsertCounts(xs[0], sorted, key);
      InsertDescending(xs[0], sorted, key);
      assert xs == [xs[0]] + xs[1..];
      var r := Insert(xs[0], sorted, key);
      assert |r| == |multiset(r)|;
      r
  }

  // ---------------------------------------------------------------------
  // Owner scoping

  function TaskUser(t: TaskDoc): nat { t.user }

  function ProjectOwner(p: ProjectDoc): nat { p.owner }

  /** `find({ user })` / `find({ owner })`: the documents of one owner, in
      collection order, every copy of them and nothing else. */
  function OwnedBy<T(!new)>(xs: seq<T>, ownerOf: T -> nat, owner: nat): (r: seq<T>)
    ensures forall x :: x in r <==> x in xs && ownerOf(x) == owner
    ensures forall x :: multiset(r)[x] == if ownerOf(x) == owner then multiset(xs)[x] else 0
    decreases |xs|
  {
    if xs == [] then []
    else
      assert xs == [xs[0]] + xs[1..];
      (if ownerOf(xs[0]) == owner then [xs[0]] else []) + OwnedBy(xs[1..], ownerOf, owner)
  }

  /** `countDocuments({ owner })`: a tally, one document at a time. */
  function CountOwnedBy<T>(xs: seq<T>, ownerOf: T -> nat, owner: nat): (c: nat)
    ensures c <= |xs|
    ensures c == 0 <==> forall i :: 0 <= i < |xs| ==> ownerOf(xs[i]) != owner
    decreases |xs|
  {
    if xs == [] then 0
    else
      assert forall i :: 1 <= i < |xs| ==> xs[1..][i - 1] == xs[i];
      (if ownerOf(xs[0]) == owner then 1 else 0) + CountOwnedBy(xs[1..], ownerOf, owner)
  }

  /** The tally is the length of the owner's list. */
  lemma {:induction false} CountIsLength<T(!new)>(xs: seq<T>, ownerOf: T -> nat, owner: nat)
    ensures CountOwnedBy(xs, ownerOf, owner) == |OwnedBy(xs, ownerOf, owner)|
    decreases |xs|
  {
    if xs != [] {
      CountIsLength(xs[1..], ownerOf, owner);
    }
  }

  /** No two tasks share an id. */
  predicate UniqueIds(tasks: seq<TaskDoc>)
  {
    forall i, j :: 0 <= i < j < |tasks| ==> tasks[i].id != tasks[j].id
  }

  predicate IdsBelow(tasks: seq<TaskDoc>, bound: nat)
  {
    forall i :: 0 <= i < |tasks| ==> tasks[i].id < bound
  }

  predicate UniqueProjectIds(projects: seq<ProjectDoc>)
  {
    forall i, j :: 0 <= i < j < |projects| ==> projects[i].id != projects[j].id
  }

  predicate ProjectIdsBelow(projects: seq<ProjectDoc>, bound: nat)
  {
    forall i :: 0 <= i < |projects| ==> projects[i].id < bound
  }

  // ---------------------------------------------------------------------
  // `{ _id, user }` queries

  /** The filter of `findOneAndUpdate` and `findOneAndDelete`: this id, and
      owned by this user. */
  predicate Identifies(t: TaskDoc, id: nat, user: nat)
  {
    t.id == id && t.user == user
  }

  /** The position of the first task the filter selects. */
  function Lookup(tasks: seq<TaskDoc>, id: nat, user: nat): (r: Option<nat>)
    ensures r.Some? ==> r.value < |tasks| && Identifies(tasks[r.value], id, user)
    ensures r.Some? ==> forall j :: 0 <= j < r.value ==> !Identifies(tasks[j], id, user)
    ensures r.None? <==> forall j :: 0 <= j < |tasks| ==> !Identifies(tasks[j], id, user)
    decreases |tasks|
  {
    if tasks == [] then None
    else if Identifies(tasks[0], id, user) then Some(0)
    else match Lookup(tasks[1..], id, user)
      case None => None
      case Some(i) => Some(i + 1)
  }

  /** With unique ids the selected task is the only one the filter selects. */
  lemma LookupIsOnly(tasks: seq<TaskDoc>, id: nat, user: nat)
    ensures UniqueIds(tasks) ==> forall j :: 0 <= j < |tasks| && Identifies(tasks[j], id, user) ==> Lookup(tasks, id, user) == Some(j)
  {
  }

  // ---------------------------------------------------------------------
  // `deleteMany({ isCompleted: true, user[, project] })`

  /** The filter of `deleteMany`: completed, owned by the user, and in the
      project when one is given. */
  predicate DeleteManyMatches(t: TaskDoc, user: nat, project: Option<nat>)
  {
    t.isCompleted && t.user == user && (project.None? || t.project == project)
  }

  /** The table after `deleteMany`: the tasks the filter does not select,
      in their order; it never grows and none of what it keeps is selected. */
  function Remaining(tasks: seq<TaskDoc>, user: nat, project: Option<nat>): (r: seq<TaskDoc>)
    ensures |r| <= |tasks|
    ensures forall i :: 0 <= i < |r| ==> !DeleteManyMatches(r[i], user, project)
    decreases |tasks|
  {
    if tasks == [] then []
    else
      Remaining(tasks[..|tasks| - 1], user, project)
        + (if DeleteManyMatches(tasks[|tasks| - 1], user, project) then [] else [tasks[|tasks| - 1]])
  }

  /** `deleteMany` removes exactly the selected tasks, every copy of them,
      and keeps every copy of the others. */
  lemma {:induction false} RemainingCounts(tasks: seq<TaskDoc>, user: nat, project: Option<nat>)
    ensures forall t :: multiset(Remaining(tasks, user, project))[t]
                     == if DeleteManyMatches(t, user, project) then 0 else multiset(tasks)[t]
    decreases |tasks|
  {
    if tasks != [] {
      var init := tasks[..|tasks| - 1];
      var last := tasks[|tasks| - 1];
      assert tasks == init + [last];
      RemainingCounts(init, user, project);
      var kept := Remaining(init, user, project);
      assert Remaining(tasks, user, project) == kept + (if DeleteManyMatches(last, user, project) then [] else [last]);
    }
  }

  /** The remaining tasks are those of the table the filter does not select. */
  lemma RemainingMembers(tasks: seq<TaskDoc>, user: nat, project: Option<nat>)
    ensures forall t :: t in Remaining(tasks, user, project) <==> t in tasks && !DeleteManyMatches(t, user, project)
  {
    RemainingCounts(tasks, user, project);
    forall t ensures t in Remaining(tasks, user, project) <==> t in tasks && !DeleteManyMatches(t, user, project) {
      assert t in Remaining(tasks, user, project) <==> multiset(Remaining(tasks, user, project))[t] > 0;
      assert t in tasks <==> multiset(tasks)[t] > 0;
    }
  }

  /** `deleteMany` removes none exactly when it selects none. */
  lemma {:induction false} RemainingLength(tasks: seq<TaskDoc>, user: nat, project: Option<nat>)
    ensures |Remaining(tasks, user, project)| <= |tasks|
    ensures |Remaining(tasks, user, project)| == |tasks|
        <==> NoneSelected(tasks, user, project)
    decreases |tasks|
  {
    if tasks != [] {
      var init := tasks[..|tasks| - 1];
      RemainingLength(init, user, project);
      assert forall i :: 0 <= i < |init| ==> init[i] == tasks[i];
    }
  }

  /** When it selects none, the table is left as it was. */
  lemma {:induction false} RemainingUnselected(tasks: seq<TaskDoc>, user: nat, project: Option<nat>)
    requires NoneSelected(tasks, user, project)
    ensures Remaining(tasks, user, project) == tasks
    decreases |tasks|
  {
    if tasks != [] {
      var init := tasks[..|tasks| - 1];
      var last := tasks[|tasks| - 1];
      assert tasks == init + [last];
      assert forall i :: 0 <= i < |init| ==> init[i] == tasks[i];
      RemainingUnselected(init, user, project);
    }
  }

  /** The table after `deleteMany` on one more task. */
  lemma RemainingSnoc(tasks: seq<TaskDoc>, t: TaskDoc, user: nat, project: Option<nat>)
    ensures Remaining(tasks + [t], user, project)
         == Remaining(tasks, user, project) + (if DeleteManyMatches(t, user, project) then [] else [t])
  {
    assert (tasks + [t])[..|tasks + [t]| - 1] == tasks;
  }

  /** Deleting keeps the ids unique and below any bound they were below. */
  lemma {:induction false} RemainingValid(tasks: seq<TaskDoc>, user: nat, project: Option<nat>, bound: nat)
    requires UniqueIds(tasks) && IdsBelow(tasks, bound)
    ensures UniqueIds(Remaining(tasks, user, project)) && IdsBelow(Remaining(tasks, user, project), bound)
    decreases |tasks|
  {
    if tasks != [] {
      var init := tasks[..|tasks| - 1];
      var last := tasks[|tasks| - 1];
      assert tasks == init + [last];
      assert UniqueIds(init) && IdsBelow(init, bound) by {
        forall i | 0 <= i < |init| ensures init[i] == tasks[i] { }
      }
      RemainingValid(init, user, project, bound);
      RemainingMembers(init, user, project);
      var kept := Remaining(init, user, project);
      assert Remaining(tasks, user, project)
          == kept + (if DeleteManyMatches(last, user, project) then [] else [last]);
      forall i | 0 <= i < |kept|
        ensures kept[i].id != last.id
      {
        assert kept[i] in init;
        var k :| 0 <= k < |init| && init[k] == kept[i];
        assert tasks[k] == kept[i];
      }
    }
  }

  /** `Project.findOne({ _id, owner })` finds a document. */
  predicate HasProject(projects: seq<ProjectDoc>, id: nat, owner: nat)
  {
    exists i :: 0 <= i < |projects| && projects[i].id == id && projects[i].owner == owner
  }

  /** `deleteMany` selects no task of the table. */
  predicate NoneSelected(tasks: seq<TaskDoc>, user: nat, project: Option<nat>)
  {
    forall i :: 0 <= i < |tasks| ==> !DeleteManyMatches(tasks[i], user, project)
  }

  /** The database: both collections and the next object id. */
  class Database {
    var tasks: seq<TaskDoc>
    var projects: seq<ProjectDoc>
    var nextId: nat

    /** Object ids are unique within each collection and below the counter. */
    ghost predicate Valid()
      reads this
    {
      && UniqueIds(tasks) && IdsBelow(tasks, nextId)
      && UniqueProjectIds(projects) && ProjectIdsBelow(projects, nextId)
    }

    constructor ()
      ensures Valid()
      ensures tasks == [] && projects == [] && nextId == 0
    {
      tasks := [];
      projects := [];
      nextId := 0;
    }

    /** The search of `findOneAndUpdate` and `findOneAndDelete`, scanning the
        collection in order. */
    method FindTask(id: nat, user: nat) returns (index: Option<nat>)
      ensures index == Lookup(tasks, id, user)
    {
      var i := 0;
      while i < |tasks|
        invariant 0 <= i <= |tasks|
        invariant forall j :: 0 <= j < i ==> !Identifies(tasks[j], id, user)
      {
        if Identifies(tasks[i], id, user) {
          return Some(i);
        }
        i := i + 1;
      }
      return None;
    }

    /** The search of `Project.findOne({ _id, owner })`. */
    method FindProject(id: nat, owner: nat) returns (found: bool)
      ensures found <==> HasProject(projects, id, owner)
    {
      var i := 0;
      while i < |projects|
        invariant 0 <= i <= |projects|
        invariant forall j :: 0 <= j < i ==> !(projects[j].id == id && projects[j].owner == owner)
      {
        if projects[i].id == id && projects[i].owner == owner {
          return true;
        }
        i := i + 1;
      }
      return false;
    }

    /** deleteMany: every task the filter selects is removed, one pass over
        the collection; the number removed is returned. */
    method DeleteMany(user: nat, project: Option<nat>) returns (deletedCount: nat)
      requires Valid()
      modifies this
      ensures Valid()
      ensures tasks == Remaining(old(tasks), user, project)
      ensures deletedCount == |old(tasks)| - |tasks|
      ensures projects == old(projects) && nextId == old(nextId)
    {
      var current := tasks;
      var kept: seq<TaskDoc> := [];
      var i := 0;
      while i < |current|
        invariant 0 <= i <= |current|
        invariant kept == Remaining(current[..i], user, project)
        invariant unchanged(this)
      {
        assert current[..i + 1] == current[..i] + [current[i]];
        RemainingSnoc(current[..i], current[i], user, project);
        if !DeleteManyMatches(current[i], user, project) {
          kept := kept + [current[i]];
        }
        i := i + 1;
      }
      assert current[..i] == current;
      RemainingValid(current, user, project, nextId);
      RemainingLength(current, user, project);
      tasks := kept;
      deletedCount := |current| - |kept|;
    }
  }
}
