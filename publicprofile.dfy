/**
 * The public page of a shop (`PublicProfile`): its heading is the route's slug with
 * every `-` shown as a space.
 */
module PublicProfile {
  import opened Wrappers
  import Register

  /** `slug?.replace(/-/g, ' ')`; no slug renders nothing. */
  function Title(slug: Option<string>): (r: Option<string>)
    ensures r.None? <==> slug.None?
    ensures slug.Some? ==> |r.value| == |slug.value|
    ensures slug.Some? ==> forall i :: 0 <= i < |r.value| ==> r.value[i] != '-'
    ensures slug.Some? ==> forall i :: 0 <= i < |slug.value| && slug.value[i] != '-' ==> r.value[i] == slug.value[i]
    ensures slug.Some? ==> forall i :: 0 <= i < |slug.value| && slug.value[i] == '-' ==> r.value[i] == ' '
  {
    if slug.None? then None else Some(DashesToSpaces(slug.value))
  }

  function DashesToSpaces(s: string): (r: string)
    ensures |r| == |s|
    ensures forall i :: 0 <= i < |s| ==> r[i] == if s[i] == '-' then ' ' else s[i]
  {
    if s == [] then [] else [if s[0] == '-' then ' ' else s[0]] + DashesToSpaces(s[1..])
  }

  function SpacesToDashes(s: string): (r: string)
    ensures |r| == |s|
    ensures forall i :: 0 <= i < |s| ==> r[i] == if s[i] == ' ' then '-' else s[i]
  {
    if s == [] then [] else [if s[0] == ' ' then '-' else s[0]] + SpacesToDashes(s[1..])
  }

  /**
   * A slug generated at sign-up, or typed by hand and accepted by the step-2 pattern, holds
   * no space, so its title determines it.
   */
  lemma TitleDeterminesSlug(slug: string)
    requires Register.IsCleanSlug(slug) || Register.MatchesSlugPattern(slug)
    ensures SpacesToDashes(Title(Some(slug)).value) == slug
  {
  }
}
