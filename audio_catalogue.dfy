/** Picking the next track: a random language folder under `audio`, then a
    random file in it (`choose_language`, `choose_track`, `choose_audio`).

    The directory listings are given as a catalogue, and each `randint`
    result is an index parameter. Asking `randint(0, n - 1)` for an empty
    listing raises, which is `Err(AssetUnavailable)` here. */
module AudioCatalogue {
  import opened Outcomes
  import opened LanguageDetection

  /** The directory holding one folder per language. */
  const AudioRoot := "audio"

  /** The separator `os.path.join` puts between path parts. */
  const Sep := '/'

  /** One language folder and the files `os.listdir` finds in it. */
  datatype Folder = Folder(name: string, tracks: seq<string>)

  /** The folders `os.listdir("audio")` finds, in listing order. */
  type Catalogue = seq<Folder>

  /** `os.path.join(dir, name)`. */
  function Join(dir: string, name: string): string {
    dir + [Sep] + name
  }

  /** `randint(0, n - 1)` draws `i`; it raises when `n` is 0. */
  predicate IndexFits(n: nat, i: int) {
    n > 0 ==> 0 <= i < n
  }

  /** The two draws of `choose_audio` are in range wherever they are used. */
  predicate AudioDrawsFit(cat: Catalogue, language: int, track: int) {
    && IndexFits(|cat|, language)
    && (0 <= language < |cat| ==> IndexFits(|cat[language].tracks|, track))
  }

  /** Every folder is named after an entry of `languages`. */
  predicate FoldersKnown(languages: seq<string>, cat: Catalogue) {
    forall f :: f in cat ==> f.name in languages
  }

  /** `choose_language`: the `i`-th folder name. */
  function ChooseLanguage(cat: Catalogue, i: int): (r: Result<string>)
    requires IndexFits(|cat|, i)
    ensures r.Ok? <==> |cat| > 0
    ensures r.Ok? ==> r.value == cat[i].name
  {
    if |cat| == 0 then Err(AssetUnavailable) else Ok(cat[i].name)
  }

  /** `choose_track`: the `j`-th file of the folder. */
  function ChooseTrack(folder: Folder, j: int): (r: Result<string>)
    requires IndexFits(|folder.tracks|, j)
    ensures r.Ok? <==> |folder.tracks| > 0
    ensures r.Ok? ==> r.value in folder.tracks
  {
    if |folder.tracks| == 0 then Err(AssetUnavailable) else Ok(folder.tracks[j])
  }

  /** `choose_audio`: `audio/<language>/<track>` for the drawn folder and
      file; fails when the catalogue or the drawn folder is empty. */
  function ChooseAudio(cat: Catalogue, i: int, j: int): (r: Result<string>)
    requires AudioDrawsFit(cat, i, j)
    ensures r.Ok? <==> |cat| > 0 && |cat[i].tracks| > 0
    ensures r.Ok? ==> r.value == Join(Join(AudioRoot, cat[i].name), cat[i].tracks[j])
  {
    match ChooseLanguage(cat, i)
    case Err(e) => Err(e)
    case Ok(language) =>
      match ChooseTrack(cat[i], j)
      case Err(e) => Err(e)
      case Ok(track) => Ok(Join(Join(AudioRoot, language), track))
  }

  /** The folder name occurs in every path built from it. */
  lemma FolderOccursInPath(folder: string, track: string)
    ensures Occurs(folder, Join(Join(AudioRoot, folder), track))
  {
    var p := Join(Join(AudioRoot, folder), track);
    assert p[|AudioRoot| + 1..|AudioRoot| + 1 + |folder|] == folder;
    assert OccursAt(folder, p, |AudioRoot| + 1);
  }

  /** With every folder named after an entry of `languages`, `get_lang` finds a
      language in every path `choose_audio` returns. */
  lemma ChosenPathDetectable(languages: seq<string>, cat: Catalogue, i: int, j: int)
    requires AudioDrawsFit(cat, i, j) && FoldersKnown(languages, cat) && ChooseAudio(cat, i, j).Ok?
    ensures LanguageOf(languages, ChooseAudio(cat, i, j).value).Some?
  {
    FolderOccursInPath(cat[i].name, cat[i].tracks[j]);
    assert cat[i] in cat;
    LanguageOfFinds(languages, ChooseAudio(cat, i, j).value, cat[i].name);
  }

  /** The `k`-th character of an occurrence of `w` at `i` is `w[k]`. */
  lemma OccurrenceAt(w: string, s: string, i: int, k: int)
    requires OccursAt(w, s, i) && 0 <= k < |w|
    ensures s[i + k] == w[k]
  {
    assert s[i..i + |w|][k] == w[k];
  }

  /** The characters of `audio/<folder>/<track>`, position by position. */
  lemma TrackPathAt(folder: string, track: string, k: int)
    requires 0 <= k < |Join(Join(AudioRoot, folder), track)|
    ensures var p, start := Join(Join(AudioRoot, folder), track), |AudioRoot| + 1;
      && (k < |AudioRoot| ==> 'a' <= p[k] <= 'z')
      && (k == |AudioRoot| ==> p[k] == Sep)
      && (start <= k < start + |folder| ==> p[k] == folder[k - start])
      && (k == start + |folder| ==> p[k] == Sep)
      && (start + |folder| < k ==> p[k] == track[k - start - |folder| - 1])
  {
  }

  /** An occurrence of a capitalised word that starts before the track
      name starts the folder name, and is a prefix of it. */
  lemma OccurrenceInFolder(w: string, folder: string, track: string, i: int)
    requires Capitalised(w) && Capitalised(folder)
    requires OccursAt(w, Join(Join(AudioRoot, folder), track), i)
    requires i <= |AudioRoot| + 1 + |folder|
    ensures IsPrefix(w, folder)
  {
    var p := Join(Join(AudioRoot, folder), track);
    var start := |AudioRoot| + 1;
    OccurrenceAt(w, p, i, 0);
    TrackPathAt(folder, track, i);
    if i != start {
      assert false;
    }
    if |w| > |folder| {
      OccurrenceAt(w, p, i, |folder|);
      TrackPathAt(folder, track, start + |folder|);
      assert false;
    }
    forall k | 0 <= k < |w| ensures folder[k] == w[k] {
      OccurrenceAt(w, p, i, k);
      TrackPathAt(folder, track, start + k);
    }
  }

  /** An occurrence that starts inside the track name lies within it. */
  lemma OccurrenceInTrack(w: string, folder: string, track: string, i: int)
    requires OccursAt(w, Join(Join(AudioRoot, folder), track), i)
    requires i > |AudioRoot| + 1 + |folder|
    ensures Occurs(w, track)
  {
    var p := Join(Join(AudioRoot, folder), track);
    var t := i - |AudioRoot| - 1 - |folder| - 1;
    forall k | 0 <= k < |w| ensures track[t + k] == w[k] {
      OccurrenceAt(w, p, i, k);
      TrackPathAt(folder, track, i + k);
    }
    assert track[t..t + |w|] == w;
    assert OccursAt(w, track, t);
  }

  /** Where a capitalised word can occur in `audio/<folder>/<track>` when
      the folder name is capitalised too: as a prefix of the folder name,
      or inside the track name. */
  lemma OccurrenceInTrackPath(w: string, folder: string, track: string)
    requires Capitalised(w) && Capitalised(folder)
    requires Occurs(w, Join(Join(AudioRoot, folder), track))
    ensures IsPrefix(w, folder) || Occurs(w, track)
  {
    var p := Join(Join(AudioRoot, folder), track);
    var i :| 0 <= i <= |p| - |w| && OccursAt(w, p, i);
    if i <= |AudioRoot| + 1 + |folder| {
      OccurrenceInFolder(w, folder, track, i);
    } else {
      OccurrenceInTrack(w, folder, track, i);
    }
  }

  /** `get_lang` recovers the folder a track was drawn from, as long as no
      listed language occurs in the track's file name. */
  lemma ChosenPathNamesFolder(cat: Catalogue, i: int, j: int)
    requires AudioDrawsFit(cat, i, j) && ChooseAudio(cat, i, j).Ok?
    requires cat[i].name in Languages
    requires forall l :: l in Languages ==> !Occurs(l, cat[i].tracks[j])
    ensures LanguageOf(Languages, ChooseAudio(cat, i, j).value) == Some(cat[i].name)
  {
    var folder, track := cat[i].name, cat[i].tracks[j];
    var p := ChooseAudio(cat, i, j).value;
    FolderOccursInPath(folder, track);
    LanguageOfFinds(Languages, p, folder);
    var r := LanguageOf(Languages, p);
    LanguagesCapitalised();
    OccurrenceInTrackPath(r.value, folder, track);
    LanguagesPrefixFree();
  }

  /** A file name without upper-case letters contains no listed language. */
  lemma NoLanguageInLowerCaseName(track: string)
    requires forall k :: 0 <= k < |track| ==> !('A' <= track[k] <= 'Z')
    ensures forall l :: l in Languages ==> !Occurs(l, track)
  {
    LanguagesCapitalised();
  }

  /** Without that condition the folder can be masked: a Spanish folder
      holding `English.mp3` is scored as English, because English comes
      first in the list. */
  lemma TrackNameCanMaskFolder()
    ensures var cat := [Folder("Spanish", ["English.mp3"])];
      && ChooseAudio(cat, 0, 0) == Ok("audio/Spanish/English.mp3")
      && LanguageOf(Languages, ChooseAudio(cat, 0, 0).value) == Some("English")
  {
    var p := "audio/Spanish/English.mp3";
    assert Join(Join(AudioRoot, "Spanish"), "English.mp3") == p;
    assert p[14..21] == "English";
    assert OccursAt("English", p, 14);
    assert Languages[0] == "English";
  }
}
