/** The static list of supported languages and the search that recovers the
    language of a stored track path (`User.languages`, `User.get_lang`). */
module LanguageDetection {
  import opened Outcomes

  /** The 18 supported languages, in the order `get_lang` scans them. */
  const Languages: seq<string> := [
    "English", "Portuguese", "Danish", "Dutch", "French", "German", "Icelandic", "Italian", "Japanese",
    "Korean", "Norwegian", "Polish", "Romanian", "Russian", "Spanish", "Swedish", "Turkish", "Welsh"
  ]

  /** No element of `s` appears twice. */
  predicate Distinct<T(==)>(s: seq<T>) {
    forall i, j :: 0 <= i < j < |s| ==> s[i] != s[j]
  }

  /** `w` appears in `s` starting at index `i`. */
  predicate OccursAt(w: string, s: string, i: int) {
    0 <= i && i + |w| <= |s| && s[i..i + |w|] == w
  }

  /** Python's `w in s` on strings: `w` is a substring of `s`. */
  predicate Occurs(w: string, s: string) {
    exists i :: 0 <= i <= |s| - |w| && OccursAt(w, s, i)
  }

  /** `get_lang` over the list `languages`: the first entry that is a
      substring of `path`, or None when none is. */
  function LanguageOf(languages: seq<string>, path: string): (r: Option<string>)
    ensures r.Some? ==> r.value in languages && Occurs(r.value, path)
    decreases |languages|
  {
    if languages == [] then None
    else if Occurs(languages[0], path) then Some(languages[0])
    else LanguageOf(languages[1..], path)
  }

  /** `get_lang` finds nothing exactly when no entry occurs in the path;
      otherwise it returns an entry that occurs in the path, and every
      entry before it does not. */
  lemma {:induction false} LanguageOfFirstMatch(languages: seq<string>, path: string)
    ensures var r := LanguageOf(languages, path);
      && (r.None? <==> forall k :: 0 <= k < |languages| ==> !Occurs(languages[k], path))
      && (r.Some? ==>
            exists k :: 0 <= k < |languages| && languages[k] == r.value && Occurs(r.value, path) &&
              forall j :: 0 <= j < k ==> !Occurs(languages[j], path))
    decreases |languages|
  {
    if languages != [] && !Occurs(languages[0], path) {
      var rest := languages[1..];
      LanguageOfFirstMatch(rest, path);
      assert forall k :: 1 <= k < |languages| ==> languages[k] == rest[k - 1];
      var r := LanguageOf(rest, path);
      if r.Some? {
        var k :| 0 <= k < |rest| && rest[k] == r.value && Occurs(r.value, path) &&
          forall j :: 0 <= j < k ==> !Occurs(rest[j], path);
        assert languages[k + 1] == r.value;
        assert forall j :: 0 <= j < k + 1 ==> !Occurs(languages[j], path);
      }
    }
  }

  /** The found language is one of the list and occurs in the path; any
      entry that occurs in the path means something is found. */
  lemma LanguageOfFinds(languages: seq<string>, path: string, l: string)
    ensures var r := LanguageOf(languages, path);
      && (r.Some? ==> r.value in languages && Occurs(r.value, path))
      && (l in languages && Occurs(l, path) ==> r.Some?)
  {
    LanguageOfFirstMatch(languages, path);
  }

  /** No language is listed twice: their first three letters already differ. */
  lemma LanguagesDistinct()
    ensures Distinct(Languages)
  {
    LanguageHeadsDistinct();
  }

  /** An upper-case ASCII letter followed only by lower-case ASCII letters,
      the shape of every listed language name. */
  predicate Capitalised(w: string) {
    |w| > 0 && 'A' <= w[0] <= 'Z' && forall k :: 1 <= k < |w| ==> 'a' <= w[k] <= 'z'
  }

  lemma LanguagesCapitalised()
    ensures forall l :: l in Languages ==> Capitalised(l)
  {
    CapitalisedFirstSix();
    CapitalisedMiddleSix();
    CapitalisedLastSix();
  }

  lemma CapitalisedFirstSix()
    ensures Capitalised("English") && Capitalised("Portuguese") && Capitalised("Danish")
    ensures Capitalised("Dutch") && Capitalised("French") && Capitalised("German")
  {
  }

  lemma CapitalisedMiddleSix()
    ensures Capitalised("Icelandic") && Capitalised("Italian") && Capitalised("Japanese")
    ensures Capitalised("Korean") && Capitalised("Norwegian") && Capitalised("Polish")
  {
  }

  lemma CapitalisedLastSix()
    ensures Capitalised("Romanian") && Capitalised("Russian") && Capitalised("Spanish")
    ensures Capitalised("Swedish") && Capitalised("Turkish") && Capitalised("Welsh")
  {
  }

  /** `a` is a prefix of `b`. */
  predicate IsPrefix(a: string, b: string) {
    |a| <= |b| && b[..|a|] == a
  }

  /** The first three letters of a word. */
  function Head(w: string): (char, char, char)
    requires |w| >= 3
  {
    (w[0], w[1], w[2])
  }

  lemma LanguageHeadsDistinct()
    ensures forall i, j :: 0 <= i < j < |Languages| ==> Head(Languages[i]) != Head(Languages[j])
  {
  }

  /** No listed language is a prefix of another one: their first three
      letters already differ. */
  lemma LanguagesPrefixFree()
    ensures forall a, b :: a in Languages && b in Languages && IsPrefix(a, b) ==> a == b
  {
    LanguageHeadsDistinct();
    forall a, b | a in Languages && b in Languages && IsPrefix(a, b)
      ensures a == b
    {
      assert |a| >= 3 && |b| >= 3;
      assert a[0] == b[0] && a[1] == b[1] && a[2] == b[2];
    }
  }
}
