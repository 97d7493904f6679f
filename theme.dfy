/** The light/dark theme: the data-theme attribute of the root element and its saved copy. */
module Theme {
  import opened Wrappers

  /** (store && store.getItem('theme')) || 'dark': the saved value when there is a non-empty one. */
  function InitialTheme(storeAvailable: bool, item: Option<string>): (t: string)
    ensures t != ""
    ensures t == "dark" || (storeAvailable && item == Some(t))
    ensures storeAvailable && item.Some? && item.value != "" ==> t == item.value
  {
    if storeAvailable && item.Some? && item.value != "" then item.value else "dark"
  }

  /** The click handler's choice: 'light' after 'dark', 'dark' after anything else. */
  function Next(t: string): (r: string)
    ensures r == "dark" || r == "light"
    ensures r == "light" <==> t == "dark"
  {
    if t == "dark" then "light" else "dark"
  }

  /** Starting from either theme, two clicks give back the original. */
  lemma ToggleTwice(t: string)
    requires t == "dark" || t == "light"
    ensures Next(Next(t)) == t
  {
  }

  /** Any other attribute value is normalised: one click gives 'dark', and from then on two clicks
      give back the original. */
  lemma ToggleNormalises(t: string)
    requires t != "dark" && t != "light"
    ensures Next(t) == "dark" && Next(Next(t)) == "light" && Next(Next(Next(t))) == "dark"
  {
  }

  class ThemeToggle {
    const storeAvailable: bool
    /** data-theme on the root element */
    var attribute: string
    /** the 'theme' entry of local storage */
    var saved: Option<string>

    /** Page load: read the saved theme, or 'dark'. */
    constructor (storeAvailable: bool, saved: Option<string>)
      ensures this.storeAvailable == storeAvailable && this.saved == saved
      ensures attribute == InitialTheme(storeAvailable, saved)
    {
      this.storeAvailable := storeAvailable;
      this.saved := saved;
      attribute := InitialTheme(storeAvailable, saved);
    }

    /** The click handler: flip the attribute, then save it when storage works. `writeOk` says
        whether setItem('theme', …) succeeds; when it throws, the attribute has already changed and
        the saved copy stays as it was. */
    method Toggle(writeOk: bool)
      modifies this
      ensures attribute == Next(old(attribute))
      ensures saved == if storeAvailable && writeOk then Some(attribute) else old(saved)
    {
      var next := Next(attribute);
      attribute := next;
      if storeAvailable && writeOk {
        saved := Some(next);
      }
    }
  }

  /** Two clicks from either theme restore the attribute. When storage works and the second write
      succeeds, the saved copy is then the original theme, on a first visit too; it gives back the old
      saved copy exactly when that copy matched the attribute. When only the first write succeeds, the
      opposite theme stays saved. When no write reaches the store, the saved copy is unchanged. */
  method ToggleTwiceRestores(page: ThemeToggle, firstOk: bool, secondOk: bool)
    requires page.attribute == "dark" || page.attribute == "light"
    modifies page
    ensures page.attribute == old(page.attribute)
    ensures page.storeAvailable && secondOk ==> page.saved == Some(old(page.attribute))
    ensures page.storeAvailable && secondOk ==> (page.saved == old(page.saved) <==> old(page.saved) == Some(old(page.attribute)))
    ensures page.storeAvailable && firstOk && !secondOk ==> page.saved == Some(Next(old(page.attribute)))
    ensures !page.storeAvailable || (!firstOk && !secondOk) ==> page.saved == old(page.saved)
  {
    page.Toggle(firstOk);
    page.Toggle(secondOk);
    ToggleTwice(old(page.attribute));
  }
}
