/** The projects slider: the caller's projects shown three to a slide,
    circular navigation between the slides, and the add-project form. */
module ProjectsSlider {
  import opened Js
  import opened Wrappers

  const ItemsPerSlide: nat := 3

  /** The colour the add form starts with and is reset to. */
  const DefaultColor: string := "#3b82f6"

  datatype Project = Project(id: string, name: string, color: string, createdAt: int)

  /** The body of the create request. */
  datatype NewProjectRequest = NewProjectRequest(name: string, color: string)

  /** `Math.ceil(n / 3)`: the fewest slides of three that hold n projects. */
  function TotalSlides(n: nat): (t: nat)
    ensures ItemsPerSlide * t >= n
    ensures t > 0 ==> ItemsPerSlide * (t - 1) < n
    ensures t == 0 <==> n == 0
  {
    (n + 2) / 3
  }

  /** nextSlide: one slide on, from the last back to the first. */
  function NextSlide(current: nat, total: nat): (next: nat)
    requires total > 0
    ensures next < total
    ensures current + 1 < total ==> next == current + 1
    ensures current + 1 == total ==> next == 0
  {
    (current + 1) % total
  }

  /** prevSlide: one slide back, from the first round to the last. */
  function PrevSlide(current: nat, total: nat): (prev: nat)
    requires total > 0
    ensures prev < total
    ensures 0 < current <= total ==> prev == current - 1
    ensures current == 0 ==> prev == total - 1
  {
    (current - 1 + total) % total
  }

  /** Going back undoes going on and going on undoes going back. */
  lemma NextPrevInverse(current: nat, total: nat)
    requires 0 <= current < total
    ensures PrevSlide(NextSlide(current, total), total) == current
    ensures NextSlide(PrevSlide(current, total), total) == current
  {
  }

  /** The projects on slide k, as getCurrentSlideProjects and the slide
      rendering cut them out. */
  function SlideProjects(projects: seq<Project>, k: nat): (page: seq<Project>)
    ensures |page| <= ItemsPerSlide
    ensures 3 * k + 3 <= |projects| ==> page == projects[3 * k..3 * k + 3]
    ensures 3 * k <= |projects| < 3 * k + 3 ==> page == projects[3 * k..]
    ensures k < TotalSlides(|projects|) ==> page != []
  {
    Slice(projects, 3 * k, 3 * k + 3)
  }

  /** The slides the component renders, one per slide index. */
  function Slides(projects: seq<Project>): (slides: seq<seq<Project>>)
    ensures |slides| == TotalSlides(|projects|)
    ensures forall k :: 0 <= k < |slides| ==> slides[k] == SlideProjects(projects, k)
  {
    seq(TotalSlides(|projects|), k requires 0 <= k => SlideProjects(projects, k))
  }

  function Flatten<T>(xss: seq<seq<T>>): seq<T>
    decreases |xss|
  {
    if xss == [] then [] else xss[0] + Flatten(xss[1..])
  }

  /** Dropping the first slide shifts the others by one. */
  lemma SlidesTail(projects: seq<Project>)
    requires |projects| > 0
    ensures Slides(projects) == [SlideProjects(projects, 0)] + Slides(projects[Js.Min(3, |projects|)..])
  {
    var m := Js.Min(3, |projects|);
    var rest := projects[m..];
    if |projects| > 3 {
      forall k | 0 <= k < TotalSlides(|rest|)
        ensures SlideProjects(rest, k) == SlideProjects(projects, k + 1)
      {
        if 3 * k + 3 <= |rest| {
          assert rest[3 * k..3 * k + 3] == projects[3 * (k + 1)..3 * (k + 1) + 3];
        } else {
          assert rest[3 * k..] == projects[3 * (k + 1)..];
        }
      }
    }
    assert Slides(projects)[1..] == Slides(rest);
  }

  /** The slides partition the list: read one after the other they are the
      projects in order, each slide holds one to three of them, and so
      every project is on exactly one slide. */
  lemma {:induction false} SlidesPartition(projects: seq<Project>)
    ensures Flatten(Slides(projects)) == projects
    ensures forall k :: 0 <= k < |Slides(projects)| ==> 1 <= |Slides(projects)[k]| <= 3
    decreases |projects|
  {
    if |projects| > 0 {
      var m := Js.Min(3, |projects|);
      SlidesTail(projects);
      SlidesPartition(projects[m..]);
      assert Slides(projects)[1..] == Slides(projects[m..]);
      assert SlideProjects(projects, 0) == projects[..m];
      assert projects[..m] + projects[m..] == projects;
    }
  }

  class Slider {
    var projects: seq<Project>
    var loading: bool
    var currentSlide: nat
    var showAddProject: bool
    var newProjectName: string
    var newProjectColor: string

    constructor ()
      ensures projects == [] && loading && currentSlide == 0 && !showAddProject
      ensures newProjectName == "" && newProjectColor == DefaultColor
    {
      projects := [];
      loading := true;
      currentSlide := 0;
      showAddProject := false;
      newProjectName := "";
      newProjectColor := DefaultColor;
    }

    /** getCurrentSlideProjects: at most three projects, and for a slide
        index in range exactly the slide rendered at that index. */
    function CurrentSlideProjects(): (r: seq<Project>)
      reads this
      ensures |r| <= ItemsPerSlide
      ensures currentSlide < TotalSlides(|projects|) ==> r == Slides(projects)[currentSlide] && r != []
    {
      SlideProjects(projects, currentSlide)
    }

    /** The fetch effect: without a token or user nothing is requested; a
        successful response replaces the list; loading ends in every case. */
    method LoadProjects(hasToken: bool, hasUser: bool, response: Option<seq<Project>>)
      modifies this
      ensures !loading
      ensures hasToken && hasUser && response.Some? ==> projects == response.value
      ensures !(hasToken && hasUser && response.Some?) ==> projects == old(projects)
      ensures currentSlide == old(currentSlide) && showAddProject == old(showAddProject)
      ensures newProjectName == old(newProjectName) && newProjectColor == old(newProjectColor)
    {
      if !hasToken || !hasUser {
        loading := false;
        return;
      }
      if response.Some? {
        projects := response.value;
      }
      loading := false;
    }

    /** The forward button, shown only when there is more than one slide. */
    method Next()
      requires TotalSlides(|projects|) > 1
      modifies this
      ensures currentSlide == NextSlide(old(currentSlide), TotalSlides(|old(projects)|))
      ensures projects == old(projects) && showAddProject == old(showAddProject)
      ensures newProjectName == old(newProjectName) && newProjectColor == old(newProjectColor)
      ensures loading == old(loading)
    {
      currentSlide := (currentSlide + 1) % TotalSlides(|projects|);
    }

    /** The back button, shown only when there is more than one slide. */
    method Prev()
      requires TotalSlides(|projects|) > 1
      modifies this
      ensures currentSlide == PrevSlide(old(currentSlide), TotalSlides(|old(projects)|))
      ensures projects == old(projects) && showAddProject == old(showAddProject)
      ensures newProjectName == old(newProjectName) && newProjectColor == old(newProjectColor)
      ensures loading == old(loading)
    {
      var total := TotalSlides(|projects|);
      currentSlide := (currentSlide - 1 + total) % total;
    }

    /** addProject, with the server's reply as a parameter: a blank name or a
        missing token sends nothing; otherwise the trimmed name and the chosen
        colour are sent, and when the server answers with the created project
        it is appended and the form is reset to its defaults and hidden. */
    method AddProject(hasToken: bool, reply: Option<Project>) returns (sent: Option<NewProjectRequest>)
      modifies this
      ensures sent.Some? <==> hasToken && !Blank(old(newProjectName))
      ensures sent.Some? ==> sent.value == NewProjectRequest(Trim(old(newProjectName)), old(newProjectColor))
      ensures sent.Some? && reply.Some? ==>
        && projects == old(projects) + [reply.value]
        && newProjectName == "" && newProjectColor == DefaultColor && !showAddProject
      ensures !(sent.Some? && reply.Some?) ==>
        && projects == old(projects) && newProjectName == old(newProjectName)
        && newProjectColor == old(newProjectColor) && showAddProject == old(showAddProject)
      ensures currentSlide == old(currentSlide) && loading == old(loading)
    {
      var name := Trim(newProjectName);
      if name == [] {
        return None;
      }
      if !hasToken {
        return None;
      }
      sent := Some(NewProjectRequest(name, newProjectColor));
      if reply.Some? {
        projects := projects + [reply.value];
        newProjectName := "";
        newProjectColor := DefaultColor;
        showAddProject := false;
      }
    }

    /** cancelAddProject: the form back to its defaults, hidden. */
    method CancelAddProject()
      modifies this
      ensures newProjectName == "" && newProjectColor == DefaultColor && !showAddProject
      ensures projects == old(projects) && currentSlide == old(currentSlide)
      ensures loading == old(loading)
    {
      newProjectName := "";
      newProjectColor := DefaultColor;
      showAddProject := false;
    }
  }
}
