/**
 * The group list page's `getInitials`, a copy of the avatar fallback kept
 * in the page module.
 */
module Home {
  import opened JsStrings
  import PeopleAvatarGroup

  /**
   * `getInitials`: the same steps as the avatar fallback, so the same result
   * on every name: the upper-cased first characters of the first two words
   * of the name once everything but ASCII letters, digits and whitespace is
   * removed.
   */
  function GetInitials(name: string): (r: string)
    ensures r == PeopleAvatarGroup.PersonAvatarFallback(name)
    ensures r == Upper(PeopleAvatarGroup.FirstTwo(WordStarts(StripSpecial(name), true)))
  {
    WordStartsTrim(StripSpecial(name));
    if name == [] then
      assert StripSpecial(name) == [];
      ""
    else
      var cleaned := Trim(StripSpecial(name));
      if cleaned == [] then ""
      else
        var parts := NonEmpty(SplitWs(cleaned));
        TrimmedHasWord(cleaned);
        SplitHeads(cleaned);
        PeopleAvatarGroup.InitialsOfWords(parts);
        if |parts| == 1 then Upper(parts[0][..1])
        else Upper(parts[0][..1] + parts[1][..1])
  }

  /** The initials are at most two characters, each an upper-case ASCII letter or a digit. */
  lemma InitialsShape(name: string)
    ensures |GetInitials(name)| <= 2
    ensures forall k :: 0 <= k < |GetInitials(name)| ==> IsUpperAlnum(GetInitials(name)[k])
  {
    PeopleAvatarGroup.FallbackShape(name);
  }
}
