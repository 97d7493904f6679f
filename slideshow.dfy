/** The slideshow: which slide carries the `active` class, and the timer that advances it. */
module Slides {
  /** The `active` flag of every slide, and the index the timer callback holds. */
  datatype Show = Show(active: seq<bool>, idx: nat)

  /** n slides of which exactly slide j is active. */
  function OnlyAt(n: nat, j: nat): (r: seq<bool>)
    ensures |r| == n
  {
    seq(n, i => i == j)
  }

  /** The index is a slide and exactly that slide is active. */
  predicate OneActive(s: Show) {
    s.idx < |s.active| && s.active == OnlyAt(|s.active|, s.idx)
  }

  /** buildSlideshow: the first slide gets 'slide active', the others 'slide', and idx starts at 0. */
  function Initial(n: nat): (s: Show)
    ensures n > 0 ==> OneActive(s) && s.idx == 0
  {
    Show(OnlyAt(n, 0), 0)
  }

  /** The index after idx, modulo the number of slides. */
  lemma NextIndex(i: nat, n: nat)
    requires i < n
    ensures (i + 1) % n == if i + 1 == n then 0 else i + 1
  {
  }

  /** One timer tick: the current slide loses 'active', the index advances circularly, the new slide
      gains 'active'. */
  function Tick(s: Show): (r: Show)
    requires s.idx < |s.active|
    ensures |r.active| == |s.active| && r.idx < |r.active|
    ensures r.idx == if s.idx + 1 == |s.active| then 0 else s.idx + 1
    ensures OneActive(s) ==> OneActive(r)
  {
    var j := (s.idx + 1) % |s.active|;
    NextIndex(s.idx, |s.active|);
    Show(s.active[s.idx := false][j := true], j)
  }

  /** k ticks in a row. */
  function Ticks(s: Show, k: nat): (r: Show)
    requires s.idx < |s.active|
    ensures |r.active| == |s.active| && r.idx < |r.active|
    decreases k
  {
    if k == 0 then s else Tick(Ticks(s, k - 1))
  }

  /** Within one round of ticks, the active slide is the one k places on, wrapping past the last. */
  lemma {:induction false} TicksAdvance(s: Show, k: nat)
    requires OneActive(s) && k <= |s.active|
    ensures var j := if s.idx + k < |s.active| then s.idx + k else s.idx + k - |s.active|;
            Ticks(s, k) == Show(OnlyAt(|s.active|, j), j)
  {
    if k > 0 {
      TicksAdvance(s, k - 1);
    }
  }

  /** After as many ticks as there are slides, the slideshow is back where it started. */
  lemma FullCycle(s: Show)
    requires OneActive(s)
    ensures Ticks(s, |s.active|) == s
  {
    TicksAdvance(s, |s.active|);
  }

  /** A restart as it should be: the current slide loses 'active', slide 0 gains it, the index is 0. */
  function Restart(s: Show): Show
    requires s.idx < |s.active|
  {
    Show(s.active[s.idx := false][0 := true], 0)
  }

  lemma RestartResets(s: Show)
    requires OneActive(s)
    ensures Restart(s) == Initial(|s.active|) && OneActive(Restart(s))
  {
  }

  /** startSlideshow as the page runs it on a resume: idx := 0, the `active` classes left as they were. */
  function RestartAsWritten(s: Show): Show {
    Show(s.active, 0)
  }

  /** Three slides, two ticks (slide 2 active), a hover and un-hover, one more tick: slides 1 and 2
      are both active. */
  lemma RestartAsWrittenLeavesTwoActive()
    ensures var s := Tick(RestartAsWritten(Ticks(Initial(3), 2)));
            s.active == [false, true, true] && !OneActive(s)
  {
    var s0 := Initial(3);
    assert s0.active == [true, false, false];
    TicksAdvance(s0, 2);
    assert Ticks(s0, 2) == Show([false, false, true], 2);
    var s := Tick(RestartAsWritten(Ticks(s0, 2)));
    assert s.active == [false, true, true];
    assert s.active[2] != OnlyAt(3, s.idx)[2];
  }

  /** The slides of one build and the interval timer. */
  class Slideshow {
    const sources: seq<string>
    /** slides[i]: does slide i carry the `active` class */
    const slides: array<bool>
    var idx: nat
    /** the interval timer is set */
    var running: bool

    ghost function State(): Show
      reads this, slides
    {
      Show(slides[..], idx)
    }

    ghost predicate Valid()
      reads this, slides
    {
      slides.Length == |sources| &&
      (|sources| > 0 ==> OneActive(State())) &&
      (|sources| == 0 ==> !running)
    }

    /** buildSlideshow followed by startSlideshow: with no slide, no timer is started. */
    constructor (sources: seq<string>)
      ensures Valid() && fresh(slides)
      ensures this.sources == sources && State() == Initial(|sources|)
      ensures running == (|sources| > 0)
    {
      this.sources := sources;
      slides := new bool[|sources|](i => i == 0);
      idx := 0;
      running := |sources| > 0;
      new;
      assert slides[..] == OnlyAt(|sources|, 0);
    }

    /** The timer callback; nothing happens while the timer is cleared. */
    method Step()
      requires Valid()
      modifies this, slides
      ensures Valid() && running == old(running)
      ensures State() == if old(running) then Tick(old(State())) else old(State())
    {
      if running {
        ghost var before := State();
        slides[idx] := false;
        idx := (idx + 1) % slides.Length;
        slides[idx] := true;
        assert slides[..] == before.active[before.idx := false][idx := true];
      }
    }

    /** The mouse enters the slideshow, or the tab is hidden: clearInterval. */
    method Pause()
      requires Valid()
      modifies this
      ensures Valid() && !running && State() == old(State())
    {
      running := false;
    }

    /** The mouse leaves, or the tab becomes visible: startSlideshow, restarting from slide 0. */
    method Start()
      requires Valid()
      modifies this, slides
      ensures Valid()
      ensures |sources| > 0 ==> running && State() == Restart(old(State())) && State() == Initial(|sources|)
      ensures |sources| == 0 ==> running == old(running) && State() == old(State())
    {
      if slides.Length == 0 {
        return;
      }
      ghost var before := State();
      slides[idx] := false;
      slides[0] := true;
      idx := 0;
      running := true;
      assert slides[..] == before.active[before.idx := false][0 := true];
      RestartResets(before);
    }
  }
}
