/** The start-up scan of the "audio" directory: every file found goes into
    the playlist in walk order, and a table maps each file name to its
    absolute path, the last path seen for a name overwriting earlier ones. */
module Library {

  /** One file reported by the directory walk: its bare name and its absolute path. */
  datatype WalkEntry = WalkEntry(name: string, path: string)

  /** The name-to-path table after inserting the walk's entries in order. */
  function PathTable(walk: seq<WalkEntry>): (r: map<string, string>)
    ensures r.Keys == set i | 0 <= i < |walk| :: walk[i].name
    ensures walk != [] ==> r[walk[|walk| - 1].name] == walk[|walk| - 1].path
    decreases |walk|
  {
    if walk == [] then map[]
    else
      var last := walk[|walk| - 1];
      PathTable(walk[..|walk| - 1])[last.name := last.path]
  }

  /** The index of the last entry named `name`, or -1 when there is none. */
  function LastIndexOf(walk: seq<WalkEntry>, name: string): (r: int)
    ensures -1 <= r < |walk|
    ensures r >= 0 ==> walk[r].name == name
    ensures forall j :: r < j < |walk| ==> walk[j].name != name
    decreases |walk|
  {
    if walk == [] then -1
    else if walk[|walk| - 1].name == name then |walk| - 1
    else LastIndexOf(walk[..|walk| - 1], name)
  }

  /** Last write wins: a name is a key exactly when some entry carries it,
      and it maps to the path of its last entry. */
  lemma {:induction false} PathTableLastWriteWins(walk: seq<WalkEntry>)
    ensures forall name :: name in PathTable(walk) <==> LastIndexOf(walk, name) >= 0
    ensures forall name :: name in PathTable(walk) ==>
      PathTable(walk)[name] == walk[LastIndexOf(walk, name)].path
    decreases |walk|
  {
    if walk != [] {
      var init := walk[..|walk| - 1];
      PathTableLastWriteWins(init);
      forall name ensures LastIndexOf(walk, name) ==
        (if walk[|walk| - 1].name == name then |walk| - 1 else LastIndexOf(init, name))
      {
      }
    }
  }

  /** Every walked name is a key, and every entry with that name (the
      duplicates included) resolves to the path of its last occurrence,
      which is at or after it. */
  lemma {:induction false} PlaylistResolves(walk: seq<WalkEntry>)
    ensures forall i :: 0 <= i < |walk| ==>
      walk[i].name in PathTable(walk) &&
      i <= LastIndexOf(walk, walk[i].name) &&
      PathTable(walk)[walk[i].name] == walk[LastIndexOf(walk, walk[i].name)].path
  {
    PathTableLastWriteWins(walk);
  }

  /** The scan loop: append each name to the playlist, record its path. */
  method ScanLibrary(walk: seq<WalkEntry>) returns (playlist: seq<string>, songPaths: map<string, string>)
    ensures |playlist| == |walk|
    ensures forall i :: 0 <= i < |walk| ==> playlist[i] == walk[i].name
    ensures songPaths == PathTable(walk)
    ensures forall i :: 0 <= i < |playlist| ==> playlist[i] in songPaths
  {
    playlist, songPaths := [], map[];
    for i := 0 to |walk|
      invariant |playlist| == i
      invariant forall k :: 0 <= k < i ==> playlist[k] == walk[k].name
      invariant songPaths == PathTable(walk[..i])
    {
      assert walk[..i + 1][..i] == walk[..i];
      songPaths := songPaths[walk[i].name := walk[i].path];
      playlist := playlist + [walk[i].name];
    }
    assert walk[..|walk|] == walk;
    PlaylistResolves(walk);
  }
}
