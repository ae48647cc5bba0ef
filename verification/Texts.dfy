/** Blank text, as the runtime's validations test for it. */
module Texts {

  // Every character that stripping a string removes.
  const WHITESPACE :=
    "\U{09}\U{0A}\U{0B}\U{0C}\U{0D}\U{1C}\U{1D}\U{1E}\U{1F}\U{20}\U{85}\U{A0}\U{1680}\U{2000}\U{2001}\U{2002}" +
    "\U{2003}\U{2004}\U{2005}\U{2006}\U{2007}\U{2008}\U{2009}\U{200A}\U{2028}\U{2029}\U{202F}\U{205F}\U{3000}"

  predicate Blank(text: string) {
    forall i :: 0 <= i < |text| ==> text[i] in WHITESPACE
  }
}
