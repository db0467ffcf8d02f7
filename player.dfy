/** The player's state and its four event handlers: selection, Play,
    Pause (which doubles as resume) and the volume slider. */
module Player {
  import opened Wrappers
  import opened Library
  import opened TrackName

  /** The audio backend, reduced to what the player's calls do to it: which
      file is loaded, whether playback is paused, how many times playback
      was started from the beginning, and the volume last set. */
  class Mixer {
    var loaded: Option<string>
    var paused: bool
    var playStarts: nat
    var volume: real

    /** The backend after initialisation: nothing loaded, full volume. */
    constructor ()
      ensures loaded == None && !paused && playStarts == 0 && volume == 1.0
    {
      loaded, paused, playStarts, volume := None, false, 0, 1.0;
    }

    /** Loads a file, replacing whatever was loaded before. */
    method Load(path: string)
      modifies this
      ensures loaded == Some(path)
      ensures paused == old(paused) && playStarts == old(playStarts) && volume == old(volume)
    {
      loaded := Some(path);
    }

    /** Starts the loaded file from its beginning, once. With nothing
        loaded the backend raises an error and nothing changes. */
    method Play() returns (started: bool)
      modifies this
      ensures started <==> old(loaded).Some?
      ensures started ==> playStarts == old(playStarts) + 1 && !paused
      ensures !started ==> unchanged(this)
      ensures loaded == old(loaded) && volume == old(volume)
    {
      started := loaded.Some?;
      if started {
        playStarts := playStarts + 1;
        paused := false;
      }
    }

    method Pause()
      modifies this
      ensures paused
      ensures loaded == old(loaded) && playStarts == old(playStarts) && volume == old(volume)
    {
      paused := true;
    }

    method Unpause()
      modifies this
      ensures !paused
      ensures loaded == old(loaded) && playStarts == old(playStarts) && volume == old(volume)
    {
      paused := false;
    }

    /** Stores the level as given; nothing clamps it on the player's side. */
    method SetVolume(level: real)
      modifies this
      ensures volume == level
      ensures loaded == old(loaded) && paused == old(paused) && playStarts == old(playStarts)
    {
      volume := level;
    }
  }

  /** The level the player sets right after start-up. */
  const InitialVolume: real := 0.5

  class MusicPlayer {
    /** The names in the selection list, in scan order. */
    var playlist: seq<string>
    /** File name to absolute path; the last path scanned for a name wins. */
    var songPaths: map<string, string>
    var currentSongPlaying: Option<string>
    var playingState: bool
    /** What the artist and song labels show; None before the first selection. */
    var shown: Option<TrackInfo>
    const mixer: Mixer

    /** Every list entry has a path, the file the mixer holds is the current
        song, and while the player believes it is playing the mixer is not paused. */
    ghost predicate Valid()
      reads this, mixer
    {
      (forall i :: 0 <= i < |playlist| ==> playlist[i] in songPaths) &&
      mixer.loaded == currentSongPlaying &&
      (playingState ==> !mixer.paused)
    }

    /** Start-up: scan the walked files, then set the volume to one half. */
    constructor (walk: seq<WalkEntry>)
      ensures Valid() && fresh(mixer)
      ensures |playlist| == |walk|
      ensures forall i :: 0 <= i < |walk| ==> playlist[i] == walk[i].name
      ensures songPaths == PathTable(walk)
      ensures currentSongPlaying == None && !playingState && shown == None
      ensures mixer.loaded == None && !mixer.paused && mixer.playStarts == 0
      ensures mixer.volume == InitialVolume
    {
      currentSongPlaying := None;
      playingState := false;
      shown := None;
      mixer := new Mixer();
      var names, paths := ScanLibrary(walk);
      playlist, songPaths := names, paths;
      new;
      mixer.SetVolume(InitialVolume);
    }

    /** The volume slider's callback: the level is passed on unchanged. */
    method SetVolume(level: real)
      requires Valid()
      modifies mixer
      ensures Valid()
      ensures mixer.volume == level
      ensures mixer.loaded == old(mixer.loaded) && mixer.paused == old(mixer.paused)
      ensures mixer.playStarts == old(mixer.playStarts)
    {
      mixer.SetVolume(level);
    }

    /** The list's selection callback. `selection` holds the selected list
        indices; `basenameOf` is the path library's base-name function. An
        empty selection fails on its first element before anything changes.
        Otherwise the selected name's path is loaded and started whatever
        the previous state, and the labels show the derived artist and title. */
    method OnSelect(selection: seq<nat>, basenameOf: string -> string) returns (handled: bool)
      requires Valid()
      requires forall k :: 0 <= k < |selection| ==> selection[k] < |playlist|
      modifies this, mixer
      ensures Valid()
      ensures handled <==> |selection| > 0
      ensures playlist == old(playlist) && songPaths == old(songPaths)
      ensures !handled ==> unchanged(this, mixer)
      ensures handled ==>
        var path := songPaths[playlist[selection[0]]];
        currentSongPlaying == Some(path) && playingState &&
        mixer.loaded == Some(path) && !mixer.paused &&
        mixer.playStarts == old(mixer.playStarts) + 1 &&
        mixer.volume == old(mixer.volume) &&
        shown == Some(Describe(basenameOf(path)))
    {
      if |selection| == 0 {
        return false;
      }
      var index := selection[0];
      var selectedSong := playlist[index];
      var songPath := songPaths[selectedSong];
      currentSongPlaying := Some(songPath);
      mixer.Load(songPath);
      var started := mixer.Play();
      playingState := true;
      shown := Some(Describe(basenameOf(songPath)));
      handled := true;
    }

    /** The Play button: starts playback from the beginning only when not
        already playing. `failed` is the backend's error when no file was
        ever selected; it escapes before the state is updated. */
    method Play() returns (failed: bool)
      requires Valid()
      modifies this, mixer
      ensures Valid()
      ensures failed <==> !old(playingState) && old(mixer.loaded).None?
      ensures old(playingState) || failed ==> unchanged(this, mixer)
      ensures !old(playingState) && !failed ==>
        playingState && !mixer.paused &&
        mixer.playStarts == old(mixer.playStarts) + 1 &&
        mixer.loaded == old(mixer.loaded) && mixer.volume == old(mixer.volume) &&
        playlist == old(playlist) && songPaths == old(songPaths) &&
        currentSongPlaying == old(currentSongPlaying) && shown == old(shown)
    {
      failed := false;
      if !playingState {
        var started := mixer.Play();
        if !started {
          return true;
        }
        playingState := true;
      }
    }

    /** The Pause button: pauses when playing, resumes otherwise. */
    method Pause()
      requires Valid()
      modifies this, mixer
      ensures Valid()
      ensures playingState == !old(playingState)
      ensures mixer.paused == old(playingState)
      ensures mixer.playStarts == old(mixer.playStarts)
      ensures mixer.loaded == old(mixer.loaded) && mixer.volume == old(mixer.volume)
      ensures playlist == old(playlist) && songPaths == old(songPaths)
      ensures currentSongPlaying == old(currentSongPlaying) && shown == old(shown)
    {
      if playingState {
        mixer.Pause();
        playingState := false;
      } else {
        mixer.Unpause();
        playingState := true;
      }
    }
  }

  /** Pressing Pause twice gives back the state it started from. */
  method PauseTwiceRestores(p: MusicPlayer)
    requires p.Valid()
    modifies p, p.mixer
    ensures p.Valid()
    ensures p.playingState == old(p.playingState)
    ensures p.mixer.paused == !old(p.playingState)
    ensures p.mixer.playStarts == old(p.mixer.playStarts)
  {
    p.Pause();
    p.Pause();
  }

  /** Pressing Play twice starts playback at most once. */
  method PlayTwiceStartsOnce(p: MusicPlayer)
    requires p.Valid()
    modifies p, p.mixer
    ensures p.Valid()
    ensures p.playingState <==> old(p.playingState) || old(p.mixer.loaded).Some?
    ensures p.mixer.playStarts ==
      old(p.mixer.playStarts) + (if old(p.playingState) || old(p.mixer.loaded).None? then 0 else 1)
  {
    var failed := p.Play();
    failed := p.Play();
  }

  /** A fresh player over the walk "Artist - Title.mp3", "justname.mp3":
      both are listed, and selecting each shows the expected labels. */
  method SelectionScenario(basenameOf: string -> string)
    returns (listed: seq<string>, first: TrackInfo, second: TrackInfo)
    requires basenameOf("/music/audio/Artist - Title.mp3") == "Artist - Title.mp3"
    requires basenameOf("/music/audio/justname.mp3") == "justname.mp3"
    ensures listed == ["Artist - Title.mp3", "justname.mp3"]
    ensures first == TrackInfo("Artist", "Title")
    ensures second == TrackInfo(UnknownArtist, "justname")
  {
    var walk := [WalkEntry("Artist - Title.mp3", "/music/audio/Artist - Title.mp3"),
                 WalkEntry("justname.mp3", "/music/audio/justname.mp3")];
    var p := new MusicPlayer(walk);
    listed := p.playlist;
    assert p.songPaths["Artist - Title.mp3"] == "/music/audio/Artist - Title.mp3";
    var ok := p.OnSelect([0], basenameOf);
    DescribeArtistTitle();
    assert p.playingState && p.mixer.playStarts == 1;
    first := p.shown.value;
    ok := p.OnSelect([1], basenameOf);
    DescribePlainName();
    second := p.shown.value;
    assert p.mixer.loaded == Some("/music/audio/justname.mp3") && p.mixer.playStarts == 2;
  }
}
