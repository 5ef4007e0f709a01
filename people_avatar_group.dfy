/**
 * The helpers of the avatar group component: the initials shown for a
 * person without a picture, and how many avatars are shown before a
 * "+n" badge takes over.
 */
module PeopleAvatarGroup {
  import opened Types
  import opened JsStrings

  /**
   * `getPersonAvatarFallback`: strip everything but ASCII letters, digits
   * and whitespace, trim, split into words, and upper-case the first
   * character of the first word and, if there is one, of the second. The
   * result is the upper-cased first two word starts of the stripped name;
   * that covers the empty name, the name with no letters or digits, the
   * one-word name (one initial) and the name of two or more words (the
   * first two initials, the rest ignored).
   */
  function PersonAvatarFallback(name: string): (r: string)
    ensures r == Upper(FirstTwo(WordStarts(StripSpecial(name), true)))
  {
    WordStartsTrim(StripSpecial(name));
    if name == [] then
      assert StripSpecial(name) == [];
      ""
    else
      var cleaned := Trim(StripSpecial(name));
      if cleaned == [] then ""
      else
        var parts := NonEmpty(SplitWs(cleaned));
        TrimmedHasWord(cleaned);
        SplitHeads(cleaned);
        InitialsOfWords(parts);
        if |parts| == 1 then Upper(parts[0][..1])
        else Upper(parts[0][..1] + parts[1][..1])
  }

  /** At most the first two elements of a list. */
  function FirstTwo<T>(xs: seq<T>): (r: seq<T>)
    ensures |r| == (if |xs| < 2 then |xs| else 2) && r == xs[..|r|]
  {
    if |xs| <= 2 then xs else xs[..2]
  }

  /** The last step of the fallback takes the first characters of the first two words. */
  lemma InitialsOfWords(parts: seq<string>)
    requires |parts| >= 1 && forall k :: 0 <= k < |parts| ==> parts[k] != []
    ensures (if |parts| == 1 then Upper(parts[0][..1]) else Upper(parts[0][..1] + parts[1][..1]))
         == Upper(FirstTwo(Heads(parts)))
  {
    var ws := Heads(parts);
    if |parts| == 1 {
      assert parts[0][..1] == [ws[0]] == FirstTwo(ws);
    } else {
      assert parts[0][..1] + parts[1][..1] == ws[..2] == FirstTwo(ws);
    }
  }

  /**
   * The fallback has one character per word, up to two, each an upper-case
   * ASCII letter or a digit.
   */
  lemma FallbackShape(name: string)
    ensures var words := |WordStarts(StripSpecial(name), true)|;
      |PersonAvatarFallback(name)| == if words < 2 then words else 2
    ensures forall k :: 0 <= k < |PersonAvatarFallback(name)| ==> IsUpperAlnum(PersonAvatarFallback(name)[k])
  {
    var stripped := StripSpecial(name);
    var ft := FirstTwo(WordStarts(stripped, true));
    var r := PersonAvatarFallback(name);
    assert r == Upper(ft);
    WordStartsChars(stripped, true);
    forall k | 0 <= k < |r| ensures IsUpperAlnum(r[k]) {
      assert ft[k] in WordStarts(stripped, true);
      assert ft[k] in stripped && !IsSpace(ft[k]);
      UpperCharAlnum(ft[k]);
    }
  }

  /** The fallback is empty exactly when the name has no ASCII letter or digit. */
  lemma FallbackEmpty(name: string)
    ensures PersonAvatarFallback(name) == "" <==> forall c :: c in name ==> !IsAsciiAlnum(c)
  {
    WordStartsEmpty(StripSpecial(name));
  }

  /**
   * `slice`'s end argument resolved against a length: a negative one counts
   * from the end, and the result is clamped to `[0, len]`.
   */
  function SliceEnd(len: nat, end: int): (r: nat)
    ensures r <= len
  {
    if end < 0 then (if len + end < 0 then 0 else len + end)
    else if end > len then len
    else end
  }

  /** `show`: `people.slice(0, max ?? people.length)`. */
  function Show(people: seq<Person>, max: Option<int>): (r: seq<Person>)
    ensures |r| <= |people| && r == people[..|r|]
    ensures max.None? ==> r == people
    ensures max.Some? && max.value >= 0 ==> |r| == if max.value < |people| then max.value else |people|
    ensures max.Some? && max.value < 0 ==> |r| == if |people| + max.value < 0 then 0 else |people| + max.value
  {
    people[..SliceEnd(|people|, if max.Some? then max.value else |people|)]
  }

  /** `remaining`: the people not shown, who make up the rest of the list. */
  function Remaining(people: seq<Person>, max: Option<int>): (r: int)
    ensures 0 <= r <= |people|
    ensures Show(people, max) + people[|people| - r..] == people
  {
    |people| - |Show(people, max)|
  }
}
