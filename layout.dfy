/** LayoutManager.adjustLayout: the body's class list carries `mobile-view`
    exactly when the viewport is narrower than 768 CSS pixels. The class
    list is a set of class names; the viewport width is a parameter. */
module Layout {

  const MOBILE_BREAKPOINT: int := 768
  const MOBILE_VIEW: string := "mobile-view"

  predicate IsMobileView(innerWidth: int) {
    innerWidth < MOBILE_BREAKPOINT
  }

  /** The body's class list after one call: `classList.add` on a narrow
      viewport, `classList.remove` otherwise. */
  function AdjustLayout(classes: set<string>, innerWidth: int): (r: set<string>)
    ensures MOBILE_VIEW in r <==> IsMobileView(innerWidth)
    ensures r - {MOBILE_VIEW} == classes - {MOBILE_VIEW}
  {
    if IsMobileView(innerWidth) then classes + {MOBILE_VIEW} else classes - {MOBILE_VIEW}
  }

  /** Only the latest width matters: a second call at any width undoes
      whatever the first call did, so re-running at the same width changes
      nothing. */
  lemma AdjustLayoutLastWins(classes: set<string>, w1: int, w2: int)
    ensures AdjustLayout(AdjustLayout(classes, w1), w2) == AdjustLayout(classes, w2)
  {
    var once := AdjustLayout(classes, w1);
    assert once - {MOBILE_VIEW} == classes - {MOBILE_VIEW};
  }

  lemma AdjustLayoutIdempotent(classes: set<string>, w: int)
    ensures AdjustLayout(AdjustLayout(classes, w), w) == AdjustLayout(classes, w)
  {
    AdjustLayoutLastWins(classes, w, w);
  }

  /** The breakpoint itself belongs to the desktop layout. */
  lemma BreakpointExamples(classes: set<string>)
    ensures MOBILE_VIEW in AdjustLayout(classes, 767)
    ensures MOBILE_VIEW !in AdjustLayout(classes, 768)
  {
  }
}
