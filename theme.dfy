/**
 * The light/dark theme switch: the value the toggle button writes to the
 * document's `data-theme` attribute, and the theme chosen at start-up.
 */
module Theme {
  import opened Wrappers

  const Light: string := "light"
  const Dark: string := "dark"

  /** The theme used when none has been saved. */
  const Default: string := Dark

  /** The toggle button: `'light'` becomes `'dark'`, and every other value,
      including an unknown saved one, becomes `'light'`. */
  function Flipped(current: string): (r: string)
    ensures r == Light || r == Dark
    ensures current != Light ==> r == Light
    ensures (current == Light || current == Dark) ==> r != current
  {
    if current == Light then Dark else Light
  }

  /** Two clicks return to the start for the two named themes. */
  lemma FlipTwice(current: string)
    requires current == Light || current == Dark
    ensures Flipped(Flipped(current)) == current
  {
  }

  /** `localStorage.getItem('theme') || 'dark'`: a missing value and the empty
      string (both falsy in JavaScript) give the default; any other saved
      value is used as it is, even one the toggle never writes. */
  function SavedTheme(stored: Option<string>): (r: string)
    ensures r != []
    ensures stored.None? ==> r == Default
    ensures stored.Some? ==> r == if stored.value == [] then Default else stored.value
  {
    match stored
    case None => Default
    case Some(s) => if s == [] then Default else s
  }

  /** Saving the theme the toggle wrote and loading it again gives it back. */
  lemma SavedFlipRoundTrip(current: string)
    ensures SavedTheme(Some(Flipped(current))) == Flipped(current)
  {
  }
}
