/**
 * The project gallery's lightbox: which project is shown, which of its images,
 * and whether the overlay is open; the arrows cycle through the images.
 */
module Gallery {
  import opened Wrappers

  datatype Project = Project(title: string, category: string, location: string, images: seq<string>)

  /** `nextImage`'s update for `n` images: the last index wraps to 0, any other moves up by one. */
  function NextIndex(i: int, n: int): (j: int)
    ensures 0 <= i < n ==> 0 <= j < n && j == (i + 1) % n
  {
    if i == n - 1 then 0 else i + 1
  }

  /** `prevImage`'s update for `n` images: 0 wraps to the last index, any other moves down by one. */
  function PrevIndex(i: int, n: int): (j: int)
    ensures 0 <= i < n ==> 0 <= j < n && j == (i + n - 1) % n
  {
    if i == 0 then n - 1 else i - 1
  }

  lemma PrevUndoesNext(i: int, n: int)
    requires 0 <= i < n
    ensures PrevIndex(NextIndex(i, n), n) == i
  {
  }

  lemma NextUndoesPrev(i: int, n: int)
    requires 0 <= i < n
    ensures NextIndex(PrevIndex(i, n), n) == i
  {
  }

  /** The index after pressing "next" `k` times. */
  function NextTimes(i: int, n: int, k: nat): int {
    if k == 0 then i else NextIndex(NextTimes(i, n, k - 1), n)
  }

  /** Pressing "next" `k` times from `i` lands on `(i + k) mod n`. */
  lemma {:induction false} NextTimesIsModular(i: int, n: int, k: nat)
    requires 0 <= i < n
    ensures NextTimes(i, n, k) == (i + k) % n
  {
    if k > 0 {
      NextTimesIsModular(i, n, k - 1);
      var j := (i + k - 1) % n;
      assert NextTimes(i, n, k) == (j + 1) % n;
      ModSucc(i + k - 1, n);
    }
  }

  lemma ModSucc(a: nat, n: int)
    requires n > 0
    ensures (a % n + 1) % n == (a + 1) % n
  {
    var q, r := a / n, a % n;
    if r + 1 < n {
      ModUnique(a + 1, n, q, r + 1);
    } else {
      ModUnique(a + 1, n, q + 1, 0);
      ModUnique(n, n, 1, 0);
    }
  }

  /** Euclidean remainders are unique. */
  lemma ModUnique(a: int, n: int, q: int, r: int)
    requires n > 0 && 0 <= r < n && a == q * n + r
    ensures a % n == r
  {
    var q', r' := a / n, a % n;
    assert n * (q - q') == n * q - n * q';
    MultipleInsideIsZero(n, q - q');
  }

  lemma MultipleInsideIsZero(n: int, m: int)
    requires n > 0 && -n < n * m < n
    ensures m == 0
  {
    if m >= 1 {
      MultipleAtLeast(n, m);
    } else if m <= -1 {
      MultipleAtLeast(n, -m);
    }
  }

  lemma {:induction false} MultipleAtLeast(n: int, m: int)
    requires n > 0 && m >= 1
    ensures n * m >= n
    decreases m
  {
    if m > 1 {
      MultipleAtLeast(n, m - 1);
      assert n * m == n * (m - 1) + n;
    }
  }

  /** So `n` presses of "next" bring the lightbox back to the image it started on. */
  lemma FullCycleReturns(i: int, n: int)
    requires 0 <= i < n
    ensures NextTimes(i, n, n) == i
  {
    NextTimesIsModular(i, n, n);
    ModUnique(i + n, n, 1, i);
  }

  class Lightbox {
    /** `lightboxOpen`. */
    var open: bool
    /** `currentProject`; `None` is `null`. */
    var project: Option<Project>
    /** `currentImageIndex`. */
    var index: int

    /** The overlay is open exactly when a project is chosen, and the index names one of its images. */
    ghost predicate Valid()
      reads this
    {
      && (open <==> project.Some?)
      && (project.Some? ==> 0 <= index < |project.value.images|)
    }

    /** The initial state: closed, no project, index 0. */
    constructor ()
      ensures !open && project == None && index == 0 && Valid()
    {
      open, project, index := false, None, 0;
    }

    /** `openLightbox(project, imageIndex = 0)`. */
    method Open(p: Project, imageIndex: int := 0)
      modifies this
      ensures open && project == Some(p) && index == imageIndex
      ensures 0 <= imageIndex < |p.images| ==> Valid()
    {
      project := Some(p);
      index := imageIndex;
      open := true;
    }

    /** `closeLightbox`. */
    method Close()
      modifies this
      ensures !open && project == None && index == 0 && Valid()
    {
      open := false;
      project := None;
      index := 0;
    }

    /** `nextImage`: a step forward when a project is set, nothing otherwise. */
    method Next()
      modifies this`index
      ensures project.Some? ==> index == NextIndex(old(index), |project.value.images|)
      ensures project.None? ==> index == old(index)
      ensures old(Valid()) ==> Valid()
    {
      if project.Some? {
        index := if index == |project.value.images| - 1 then 0 else index + 1;
      }
    }

    /** `prevImage`: a step back when a project is set, nothing otherwise. */
    method Prev()
      modifies this`index
      ensures project.Some? ==> index == PrevIndex(old(index), |project.value.images|)
      ensures project.None? ==> index == old(index)
      ensures old(Valid()) ==> Valid()
    {
      if project.Some? {
        index := if index == 0 then |project.value.images| - 1 else index - 1;
      }
    }
  }
}
