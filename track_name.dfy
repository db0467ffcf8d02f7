/** How the player turns a file's base name into the artist and title it
    shows: drop every ".mp3", then split the stem at the first " - ". */
module TrackName {
  import opened Text

  const Extension: string := ".mp3"
  const Separator: string := " - "
  const UnknownArtist: string := "Unknown"

  /** What the two detail labels show for a selected file. */
  datatype TrackInfo = TrackInfo(artist: string, title: string)

  /** The base name with every ".mp3" removed, as `replace('.mp3', '')` does. */
  function Stem(basename: string): (r: string)
    ensures |r| <= |basename|
    ensures r == basename <==> !Contains(basename, Extension)
  {
    RemoveAllChangesIffContains(basename, Extension);
    RemoveAll(basename, Extension)
  }

  /** Artist and title derived from the base name of the selected file. */
  function Describe(basename: string): (r: TrackInfo)
    ensures Contains(Stem(basename), Separator) ==>
      r.artist + Separator + r.title == Stem(basename) &&
      !Contains(r.artist, Separator) &&
      forall j :: 0 <= j < |r.artist| ==> !OccursAt(Stem(basename), Separator, j)
    ensures !Contains(Stem(basename), Separator) ==>
      r.artist == UnknownArtist && r.title == Stem(basename)
  {
    var stem := Stem(basename);
    if Contains(stem, Separator) then
      var (artist, title) := SplitOnce(stem, Separator);
      TrackInfo(artist, title)
    else
      TrackInfo(UnknownArtist, stem)
  }

  /** `x + ".mp3"` has stem `x` when `x` holds no ".mp3": no occurrence can
      straddle the end of `x`, because '.' appears in ".mp3" only at its start. */
  lemma {:induction false} StemDropsExtension(x: string)
    requires !Contains(x, Extension)
    ensures Stem(x + Extension) == x
    decreases |x|
  {
    if x == [] {
      assert OccursAt(x + Extension, Extension, 0);
      assert (x + Extension)[|Extension|..] == [];
    } else {
      var s := x + Extension;
      if |x| >= |Extension| {
        assert s[..|Extension|] == x[..|Extension|];
        assert !OccursAt(x, Extension, 0);
      } else {
        assert s[|x|] == '.';
        assert Extension[|x|] != '.';
      }
      assert !OccursAt(s, Extension, 0);
      ContainsTail(x, Extension);
      assert s[1..] == x[1..] + Extension;
      StemDropsExtension(x[1..]);
    }
  }

  /** An ".mp3" anywhere in a name is removed: the stem of `a + ".mp3" + b`
      is the stem of `a` followed by the stem of `b`. No occurrence can run
      from `a` into the extension, because '.' appears in ".mp3" only at its start. */
  lemma StemAroundExtension(a: string, b: string)
    ensures Stem(a + Extension + b) == Stem(a) + Stem(b)
  {
    var t := Extension + b;
    assert a + Extension + b == a + t;
    forall j | 0 <= j < |a| < j + |Extension|
      ensures !OccursAt(a + t, Extension, j)
    {
      assert (a + t)[|a|] == '.' != Extension[|a| - j];
      if j + |Extension| <= |a + t| {
        assert (a + t)[j..j + |Extension|][|a| - j] == (a + t)[|a|];
      }
    }
    RemoveAllAppend(a, t, Extension);
    assert OccursAt(t, Extension, 0);
    assert t[|Extension|..] == b;
  }

  /** A text none of whose characters starts `pat` does not contain `pat`. */
  lemma MissingFirstChar(s: string, pat: string)
    requires |pat| > 0
    requires forall k :: 0 <= k < |s| ==> s[k] != pat[0]
    ensures !Contains(s, pat)
  {
    forall i | 0 <= i <= |s| ensures !OccursAt(s, pat, i) {
      if i + |pat| <= |s| {
        assert s[i..i + |pat|][0] == s[i];
      }
    }
  }

  /** "Artist - Title.mp3" shows artist "Artist" and title "Title". */
  lemma DescribeArtistTitle()
    ensures Describe("Artist - Title.mp3") == TrackInfo("Artist", "Title")
  {
    MissingFirstChar("Artist - Title", Extension);
    StemDropsExtension("Artist - Title");
    assert "Artist - Title" + Extension == "Artist - Title.mp3";
    var stem := "Artist - Title";
    forall j | 0 <= j < 6 ensures !OccursAt(stem, Separator, j) {
      assert stem[j..j + |Separator|][0] == stem[j] != ' ';
    }
    SplitOnceUnique(stem, Separator, "Artist", "Title");
  }

  /** "justname.mp3" shows artist "Unknown" and title "justname". */
  lemma DescribePlainName()
    ensures Describe("justname.mp3") == TrackInfo(UnknownArtist, "justname")
  {
    MissingFirstChar("justname", Extension);
    StemDropsExtension("justname");
    assert "justname" + Extension == "justname.mp3";
    MissingFirstChar("justname", Separator);
  }

  /** A name shorter than ".mp3" is its own stem. */
  lemma ShortStem(basename: string)
    requires |basename| < |Extension|
    ensures Stem(basename) == basename
  {
    assert !Contains(basename, Extension);
  }

  /** Every ".mp3" goes, not only a trailing one. */
  lemma StemRemovesEveryOccurrence()
    ensures Stem("a.mp3b.mp3") == "ab"
  {
    var b := "b" + Extension + "";
    assert "a.mp3b.mp3" == "a" + Extension + b;
    StemAroundExtension("a", b);
    StemAroundExtension("b", "");
    ShortStem("a");
    ShortStem("b");
    ShortStem("");
  }

  /** The text left behind is not scanned again: ".m.mp3p3" keeps a ".mp3". */
  lemma StemDoesNotRescan()
    ensures Stem(".m.mp3p3") == ".mp3"
  {
    assert ".m.mp3p3" == ".m" + Extension + "p3";
    StemAroundExtension(".m", "p3");
    ShortStem(".m");
    ShortStem("p3");
  }

  /** The first " - " decides the split even when the artist then ends in
      " -": "x - - t" is artist "x" and title "- t". */
  lemma DescribeSplitsAtFirstSeparator()
    ensures Describe("x - - t") == TrackInfo("x", "- t")
  {
    MissingFirstChar("x - - t", Extension);
    assert "x - - t"[0..|Separator|][0] == 'x';
    SplitOnceUnique("x - - t", Separator, "x", "- t");
  }
}
