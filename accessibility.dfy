/** The accessibility value SMPageControl exposes for its current page. */
module Accessibility {
  import opened Optional

  /** What `String.Format` writes for a string argument: the text, or nothing for null. */
  function Text(s: Option<string>): string
  {
    s.GetOr("")
  }

  /**
   * The value UpdateAccessibilityValue composes from the current page's
   * name and the value of the underlying page control: the name, " - " and
   * the underlying value when the page has a name; the underlying value
   * unchanged when it has none; the empty string when neither is set.
   */
  function ComposeValue(pageName: Option<string>, underlying: Option<string>): (value: string)
    ensures pageName.Some? ==>
      var name := pageName.value;
      |value| == |name| + 3 + |Text(underlying)| &&
      value[..|name|] == name &&
      value[|name|..|name| + 3] == " - " &&
      value[|name| + 3..] == Text(underlying)
    ensures pageName.None? && underlying.Some? ==> value == underlying.value
    ensures pageName.None? && underlying.None? ==> value == ""
  {
    if pageName.Some? then pageName.value + " - " + Text(underlying)
    else if underlying.None? then ""
    else underlying.value
  }

  /** The composition of a named page, on the values of a three-page control. */
  lemma NamedPageExample()
    ensures ComposeValue(Some("Intro"), Some("1 of 3")) == "Intro - 1 of 3"
    ensures ComposeValue(None, Some("1 of 3")) == "1 of 3"
  {
  }
}
