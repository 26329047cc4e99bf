/**
 * The site header: the avatar initials and the highlighting of the navigation
 * links.
 */
module Header {
  import opened Types
  import opened AvatarInitials

  /** The avatar initials, "?" when there is no name. */
  function GetInitials(displayName: Option<string>): (r: string)
    ensures displayName.None? || displayName.value == "" ==> r == "?"
    ensures 1 <= |r| <= 2
  {
    Initials(displayName, "?")
  }

  const Highlighted := "text-foreground"
  const Dimmed := "text-foreground/60"

  /** The colour of the navigation link to `href` on page `pathname`. */
  function NavClass(pathname: string, href: string): (c: string)
    ensures c == Highlighted <==> pathname == href
    ensures c == Highlighted || c == Dimmed
  {
    if pathname == href then Highlighted else Dimmed
  }

  /** The Problems and Explore links are never highlighted together, and a sub-page such as a problem highlights neither. */
  lemma OneLinkHighlighted(pathname: string)
    ensures !(NavClass(pathname, "/problems") == Highlighted && NavClass(pathname, "/explore") == Highlighted)
    ensures NavClass("/problems/" + pathname, "/problems") == Dimmed
  {
    assert |"/problems/" + pathname| > |"/problems"|;
  }
}
