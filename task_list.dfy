/** The task list both task views render: a task, toggling its completion by
    id, and the tags the home view reads out of a task's description. */
module TaskList {
  import opened Js
  import opened Wrappers

  /** A task as the views hold it; the identifier type differs between the
      server-backed list (strings) and the demo list (numbers). */
  datatype Task<Id> = Task(id: Id, name: string, completed: bool, tags: seq<string>,
                           project: Option<string>)

  /** `tasks.map(task => task.id === id ? { ...task, completed: !task.completed } : task)`.
      The list keeps its length and its order of ids; each task with the
      given id has its completion flipped and nothing else, and every other
      task is left exactly as it was. */
  function Toggled<Id(==)>(tasks: seq<Task<Id>>, id: Id): (r: seq<Task<Id>>)
    ensures |r| == |tasks|
    ensures forall i :: 0 <= i < |tasks| && tasks[i].id == id ==>
      r[i] == tasks[i].(completed := !tasks[i].completed)
    ensures forall i :: 0 <= i < |tasks| && tasks[i].id != id ==> r[i] == tasks[i]
    ensures forall i :: 0 <= i < |tasks| ==> r[i].id == tasks[i].id
    decreases |tasks|
  {
    if tasks == [] then []
    else
      var t := tasks[0];
      [if t.id == id then t.(completed := !t.completed) else t] + Toggled(tasks[1..], id)
  }

  /** Toggling the same id twice gives back the original list. */
  lemma {:induction false} ToggleTwice<Id>(tasks: seq<Task<Id>>, id: Id)
    ensures Toggled(Toggled(tasks, id), id) == tasks
    decreases |tasks|
  {
    if tasks != [] {
      ToggleTwice(tasks[1..], id);
      assert Toggled(tasks, id)[1..] == Toggled(tasks[1..], id);
    }
  }

  /** Toggling one id leaves the flags of the others alone, so toggles of
      different ids can be done in either order. */
  lemma {:induction false} ToggleCommutes<Id>(tasks: seq<Task<Id>>, a: Id, b: Id)
    ensures Toggled(Toggled(tasks, a), b) == Toggled(Toggled(tasks, b), a)
    decreases |tasks|
  {
    if tasks != [] {
      ToggleCommutes(tasks[1..], a, b);
      assert Toggled(tasks, a)[1..] == Toggled(tasks[1..], a);
      assert Toggled(tasks, b)[1..] == Toggled(tasks[1..], b);
    }
  }

  /** A tag the views can show: non-empty, not starting or ending with white
      space, and without a comma. */
  predicate WellFormedTag(t: string)
  {
    Trimmed(t) && ',' !in t
  }

  /** Non-empty, and neither starting nor ending with white space. */
  predicate Trimmed(t: string)
  {
    t != [] && !IsWhitespace(t[0]) && !IsWhitespace(t[|t| - 1])
  }

  /** `xs.map(f).filter(s => s)`: the images of the elements, the empty
      ones dropped, the rest kept in order. */
  function MapNonEmpty<T>(xs: seq<T>, f: T -> string): (ys: seq<string>)
    ensures |ys| <= |xs|
    decreases |xs|
  {
    if xs == [] then []
    else if f(xs[0]) == [] then MapNonEmpty(xs[1..], f)
    else [f(xs[0])] + MapNonEmpty(xs[1..], f)
  }

  /** Every position moved one place on. */
  function Shift(xs: seq<nat>): (ys: seq<nat>)
    ensures |ys| == |xs| && forall i :: 0 <= i < |xs| ==> ys[i] == xs[i] + 1
  {
    seq(|xs|, i requires 0 <= i < |xs| => xs[i] + 1)
  }

  /** The positions of the elements whose images are not empty, in order. */
  function Sources<T>(xs: seq<T>, f: T -> string): seq<nat>
    decreases |xs|
  {
    if xs == [] then []
    else if f(xs[0]) == [] then Shift(Sources(xs[1..], f))
    else [0] + Shift(Sources(xs[1..], f))
  }

  /** The sources are increasing positions of the list. */
  lemma {:induction false} SourcesIncreasing<T>(xs: seq<T>, f: T -> string)
    ensures forall i :: 0 <= i < |Sources(xs, f)| ==> Sources(xs, f)[i] < |xs|
    ensures forall i, k :: 0 <= i < k < |Sources(xs, f)| ==> Sources(xs, f)[i] < Sources(xs, f)[k]
    decreases |xs|
  {
    if xs != [] {
      SourcesIncreasing(xs[1..], f);
      var rest := Sources(xs[1..], f);
      var shifted := Shift(rest);
      if f(xs[0]) != [] {
        var idx := [0] + shifted;
        assert Sources(xs, f) == idx;
        forall i | 0 <= i < |idx| ensures idx[i] < |xs| && (i > 0 ==> idx[i] == rest[i - 1] + 1) {
          if i > 0 {
            assert idx[i] == shifted[i - 1];
          }
        }
      }
    }
  }

  /** Where each kept image comes from: result i is the non-empty image of
      the element at position Sources(xs, f)[i], and those positions
      increase, so the result is images taken in their order. */
  lemma {:induction false} MapNonEmptySources<T>(xs: seq<T>, f: T -> string)
    ensures |Sources(xs, f)| == |MapNonEmpty(xs, f)|
    ensures forall i :: 0 <= i < |Sources(xs, f)| ==>
      && Sources(xs, f)[i] < |xs|
      && MapNonEmpty(xs, f)[i] == f(xs[Sources(xs, f)[i]]) && MapNonEmpty(xs, f)[i] != []
    ensures forall i, k :: 0 <= i < k < |Sources(xs, f)| ==> Sources(xs, f)[i] < Sources(xs, f)[k]
    decreases |xs|
  {
    SourcesIncreasing(xs, f);
    if xs != [] {
      var tail := xs[1..];
      MapNonEmptySources(tail, f);
      var rest := Sources(tail, f);
      var ys := MapNonEmpty(tail, f);
      var shifted := Shift(rest);
      if f(xs[0]) == [] {
        assert Sources(xs, f) == shifted && MapNonEmpty(xs, f) == ys;
        forall i | 0 <= i < |shifted| ensures ys[i] == f(xs[shifted[i]]) {
          assert tail[rest[i]] == xs[shifted[i]];
        }
      } else {
        var idx := [0] + shifted;
        var zs := [f(xs[0])] + ys;
        assert Sources(xs, f) == idx && MapNonEmpty(xs, f) == zs;
        forall i | 0 <= i < |idx| ensures zs[i] == f(xs[idx[i]]) && zs[i] != [] {
          if i > 0 {
            assert idx[i] == shifted[i - 1] && zs[i] == ys[i - 1];
            assert tail[rest[i - 1]] == xs[shifted[i - 1]];
          }
        }
      }
    }
  }

  /** Every element whose image is not empty has its position among the
      sources. */
  lemma {:induction false} SourcesComplete<T>(xs: seq<T>, f: T -> string)
    ensures forall j :: 0 <= j < |xs| && f(xs[j]) != [] ==> j in Sources(xs, f)
    decreases |xs|
  {
    if xs != [] {
      var tail := xs[1..];
      SourcesComplete(tail, f);
      var rest := Sources(tail, f);
      var shifted := Shift(rest);
      forall j | 1 <= j < |xs| && f(xs[j]) != [] ensures j in shifted {
        assert tail[j - 1] == xs[j];
        var k :| 0 <= k < |rest| && rest[k] == j - 1;
        assert shifted[k] == j;
      }
      if f(xs[0]) != [] {
        assert Sources(xs, f) == [0] + shifted;
      }
    }
  }

  /** No image is lost: every element whose image is not empty has its
      position among the sources, so its image is in the result. */
  lemma MapNonEmptyComplete<T>(xs: seq<T>, f: T -> string)
    ensures forall j :: 0 <= j < |xs| && f(xs[j]) != [] ==> j in Sources(xs, f)
    ensures forall j :: 0 <= j < |xs| && f(xs[j]) != [] ==> f(xs[j]) in MapNonEmpty(xs, f)
  {
    MapNonEmptySources(xs, f);
    SourcesComplete(xs, f);
    var src := Sources(xs, f);
    forall j | 0 <= j < |xs| && f(xs[j]) != [] ensures f(xs[j]) in MapNonEmpty(xs, f) {
      var k :| 0 <= k < |src| && src[k] == j;
      assert MapNonEmpty(xs, f)[k] == f(xs[j]);
    }
  }

  /** Strings that are their own non-empty images are all kept as they are. */
  lemma {:induction false} MapNonEmptyFixed(xs: seq<string>, f: string -> string)
    requires forall i :: 0 <= i < |xs| ==> f(xs[i]) == xs[i] && xs[i] != []
    ensures MapNonEmpty(xs, f) == xs
    decreases |xs|
  {
    if xs != [] {
      MapNonEmptyFixed(xs[1..], f);
      assert xs == [xs[0]] + xs[1..];
    }
  }

  /** `.map(tag => tag.trim()).filter(tag => tag)`: every part trimmed, the
      ones left empty dropped; what remains is trimmed and non-empty. */
  function TrimmedNonEmpty(parts: seq<string>): (tags: seq<string>)
    ensures |tags| <= |parts|
    ensures forall i :: 0 <= i < |tags| ==> Trimmed(tags[i])
  {
    MapNonEmptySources(parts, Trim);
    MapNonEmpty(parts, Trim)
  }

  /** The tags are exactly the trimmed parts that are not blank, in their
      order: tag i is Trim of the part at TagSources(parts)[i], those
      positions increase, and every part that does not trim to nothing is
      one of them. */
  lemma TrimmedNonEmptyParts(parts: seq<string>)
    ensures |Sources(parts, Trim)| == |TrimmedNonEmpty(parts)|
    ensures forall i :: 0 <= i < |Sources(parts, Trim)| ==>
      Sources(parts, Trim)[i] < |parts| && TrimmedNonEmpty(parts)[i] == Trim(parts[Sources(parts, Trim)[i]])
    ensures forall i, k :: 0 <= i < k < |Sources(parts, Trim)| ==> Sources(parts, Trim)[i] < Sources(parts, Trim)[k]
    ensures forall j :: 0 <= j < |parts| && !Blank(parts[j]) ==> j in Sources(parts, Trim)
    ensures forall j :: 0 <= j < |parts| && !Blank(parts[j]) ==> Trim(parts[j]) in TrimmedNonEmpty(parts)
  {
    MapNonEmptySources(parts, Trim);
    MapNonEmptyComplete(parts, Trim);
  }

  /** Trimming comma-free parts keeps them comma-free. */
  lemma TrimmedNonEmptyNoComma(parts: seq<string>)
    requires forall i :: 0 <= i < |parts| ==> ',' !in parts[i]
    ensures forall i :: 0 <= i < |TrimmedNonEmpty(parts)| ==> ',' !in TrimmedNonEmpty(parts)[i]
  {
    MapNonEmptySources(parts, Trim);
    var src := Sources(parts, Trim);
    forall i | 0 <= i < |TrimmedNonEmpty(parts)| ensures ',' !in TrimmedNonEmpty(parts)[i] {
      TrimSlice(parts[src[i]]);
    }
  }

  /** Parts that are already well-formed tags pass through unchanged. */
  lemma TrimmedNonEmptyKeeps(tags: seq<string>)
    requires forall i :: 0 <= i < |tags| ==> WellFormedTag(tags[i])
    ensures TrimmedNonEmpty(tags) == tags
  {
    forall i | 0 <= i < |tags| ensures Trim(tags[i]) == tags[i] {
      TrimTrimmed(tags[i]);
    }
    MapNonEmptyFixed(tags, Trim);
  }

  /** The tags of a task, read from its description: a missing or empty
      description has none; otherwise the comma-separated pieces, trimmed,
      with the empty ones dropped. */
  function ParseTags(description: Option<string>): (tags: seq<string>)
    ensures description.None? || description.value == [] ==> tags == []
    ensures forall i :: 0 <= i < |tags| ==> WellFormedTag(tags[i])
  {
    if description.None? || description.value == [] then []
    else
      var parts := Split(description.value, ',');
      TrimmedNonEmptyNoComma(parts);
      TrimmedNonEmpty(parts)
  }

  /** Writing well-formed tags as a comma-separated description and parsing
      it gives the same tags back. */
  lemma ParseJoinedTags(tags: seq<string>)
    requires forall i :: 0 <= i < |tags| ==> WellFormedTag(tags[i])
    ensures ParseTags(Some(Join(tags, ','))) == tags
  {
    if tags != [] {
      JoinStartsWith(tags, ',');
      assert Join(tags, ',') != [];
      SplitJoin(tags, ',');
      TrimmedNonEmptyKeeps(tags);
    }
  }

  /** A task document as the tasks endpoint returns it. */
  datatype TaskRecord<Id> = TaskRecord(id: Id, title: string, isCompleted: bool,
                                       description: Option<string>, project: Option<string>)

  /** The record-to-task transformation of the fetch and the add. */
  function FromRecord<Id>(r: TaskRecord<Id>): (t: Task<Id>)
    ensures t.id == r.id && t.name == r.title && t.completed == r.isCompleted && t.project == r.project
    ensures r.description.None? || r.description.value == "" ==> t.tags == []
    ensures forall i :: 0 <= i < |t.tags| ==> WellFormedTag(t.tags[i])
  {
    Task(r.id, r.title, r.isCompleted, ParseTags(r.description), r.project)
  }
}
