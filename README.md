# Music player core in Dafny

A model of the logic inside `MusicPlayer` (`main.py`), a small desktop mp3
player. Three parts are modelled:

- **Library scan** (`library.dfy`, module `Library`). At start-up the player walks
  the `audio` directory. Every file name goes into the selection list in walk
  order. A table maps each name to its absolute path. When two files share a
  name, both stay in the list, and the path seen last overwrites the earlier one.
  The walk is an input: a sequence of `WalkEntry(name, path)`.
- **Display names** (`text.dfy` and `track_name.dfy`, modules `Text` and `TrackName`).
  The selected file's base name loses every `.mp3` (Python's
  `replace('.mp3', '')`, modelled as `RemoveAll`). The stem is then split at
  the first `" - "` into artist and title. Without a separator the artist is
  `"Unknown"` and the title is the whole stem. `Text` models the three Python
  string operations involved: `in`, `split(sep, 1)` and `replace(pat, '')`.
- **Playback state** (`player.dfy`, module `Player`). `MusicPlayer` is a class
  with the list, the name-to-path table, the current song, the
  `playingState` flag and the two detail labels. The audio backend is a separate
  class, `Mixer`. It records the loaded file, a paused flag, how many times playback
  started from the beginning, and the volume. `MusicPlayer.Valid()` says three things:
  - every list entry has a path;
  - the mixer holds the current song;
  - while `playingState` is true, the mixer is not paused.

Behaviour worth knowing (the model follows the code):

- The volume handler passes `float(val)` to the backend unchanged. The player does no clamping of its own.
- Play when not playing calls the backend's `play`, which starts the track from the beginning.
  After a Pause, then, Play restarts the track rather than continuing it. The model
  records this as a new play start.
- Play while not playing and before any selection makes the backend raise an error
  ("music not loaded"), so `playing_state` is not set. `MusicPlayer.Play` returns
  `failed` and leaves everything unchanged. Pause from start-up takes the unpause branch,
  which does not raise, and sets `playing_state`; a Play after that does nothing.
- The list keeps duplicate names. The table keeps one path per name.
- A selection event with an empty selection fails at `curselection()[0]` before
  anything changes. `OnSelect` returns `handled == false` in that case.

## Model

| member | source | states |
|---|---|---|
| `Text.Contains` | main.py:81 | `pat in s`: an occurrence needs the text to be at least as long as the pattern; the empty pattern is in every text |
| `Text.FindFirst` | main.py:82 | the first index where the separator occurs, and none before it; None exactly when the text does not contain it |
| `Text.SplitOnce` | main.py:81-82 | `split(sep, 1)` rejoins to the input (`before + sep + after == s`); `before` holds no occurrence of sep, and no occurrence starts inside it |
| `Text.SplitOnceUnique` | main.py:82 | any `a + sep + t == s` whose sep is the first occurrence is exactly the pair the split returns |
| `Text.RemoveAllChangesIffContains` | main.py:80 | `replace(pat, '')` leaves the text unchanged if and only if pat does not occur; otherwise it makes the text strictly shorter |
| `Text.RemoveAll` | main.py:80 | `replace(pat, '')` never makes the text longer; what it removes is stated by `RemoveAllChangesIffContains`, `RemoveAllAppend` and `TrackName.StemAroundExtension` |
| `Text.RemoveAllAppend` | main.py:80 | when no occurrence crosses the end of `a`, removing from `a + t` is removing from `a` and from `t` separately |
| `TrackName.Stem` | main.py:80 | `.replace('.mp3', '')` never lengthens the name, and leaves it unchanged exactly when it holds no `.mp3` |
| `TrackName.StemAroundExtension` | main.py:80 | a `.mp3` anywhere in a name is removed: the stem of `a + ".mp3" + b` is the stem of `a` followed by the stem of `b`, for all `a` and `b` |
| `TrackName.Describe` | main.py:80-85 | with a `" - "` in the stem: artist + `" - "` + title is the stem, split at the first separator; without one: artist `"Unknown"`, title the whole stem |
| `TrackName.StemDropsExtension` | main.py:80 | `x + ".mp3"` has stem `x` when `x` holds no `.mp3` |
| `TrackName.StemRemovesEveryOccurrence` | main.py:80 | an example of inner removal: `a.mp3b.mp3` gives `ab` |
| `TrackName.StemDoesNotRescan` | main.py:80 | an example that removal does not rescan the text it leaves: `.m.mp3p3` gives `.mp3` |
| `TrackName.DescribeArtistTitle` | main.py:80-85 | `Artist - Title.mp3` shows artist `Artist` and title `Title` |
| `TrackName.DescribePlainName` | main.py:80-85 | `justname.mp3` shows artist `Unknown` and title `justname` |
| `TrackName.DescribeSplitsAtFirstSeparator` | main.py:81-82 | `x - - t` splits at the first separator: artist `x`, title `- t` |
| `Library.PathTable` | main.py:43 | the table after the writes `song_paths[song] = full_path` in walk order: its keys are exactly the walked names, and the last walked file's name maps to that file's path |
| `Library.LastIndexOf` | main.py:43 | the index of the last walk entry with a given name: it carries the name and no later entry does; -1 when no entry has it |
| `Library.PathTableLastWriteWins` | main.py:40-43 | a name is a key of the table exactly when some walked file has it, and it maps to the path of its last occurrence |
| `Library.PlaylistResolves` | main.py:40-44 | every walked name is a key; every entry, duplicates included, resolves to the path of the last file with that name, at or after it |
| `Library.ScanLibrary` | main.py:40-44 | the list has one entry per walked file in walk order; the table is the last-write-wins table of the walk; every list entry is a key |
| `Player.Mixer.constructor` | main.py:17 | the backend starts with nothing loaded, not paused, no play starts |
| `Player.Mixer.Load` | main.py:76 | the loaded file becomes the given path; nothing else changes |
| `Player.Mixer.Play` | main.py:77 | with a file loaded, playback starts once more from the beginning and is not paused; with none, an error and no change |
| `Player.Mixer.Pause` | main.py:114 | playback becomes paused; nothing else changes |
| `Player.Mixer.Unpause` | main.py:117 | playback becomes unpaused; nothing else changes |
| `Player.Mixer.SetVolume` | main.py:67 | the volume becomes exactly the given level |
| `Player.MusicPlayer.constructor` | main.py:11-63 | list and table as the scan builds them; no current song; not playing; volume 0.5; nothing loaded and no play starts |
| `Player.MusicPlayer.SetVolume` | main.py:65-67 | the mixer's volume becomes exactly the given level, with no clamping; nothing else changes |
| `Player.MusicPlayer.OnSelect` | main.py:69-88 | for any prior state, the selected name's path becomes the current song and is loaded and started exactly once; the state becomes playing; labels show the derived artist and title; an empty selection changes nothing |
| `Player.MusicPlayer.Play` | main.py:107-110 | when already playing nothing changes and playback is not restarted; otherwise playback starts once and the state becomes playing, unless nothing was ever loaded |
| `Player.MusicPlayer.Pause` | main.py:112-118 | `playingState` is negated; the mixer is paused exactly when it was playing; no playback start |
| `Player.PauseTwiceRestores` | main.py:112-118 | two Pause presses restore `playingState` and start nothing |
| `Player.PlayTwiceStartsOnce` | main.py:107-110 | two Play presses start playback at most once |
| `Player.SelectionScenario` | main.py:40-85 | a directory with `Artist - Title.mp3` and `justname.mp3` lists both; selecting them shows (`Artist`, `Title`) and (`Unknown`, `justname`) |

## Left out

- Window, widgets, layout, labels' text prefixes and event binding (main.py:12-13, 19-37, 46-62, 87-88, 120-122): user interface. The labels are modelled only as the `TrackInfo` they show.
- The real audio backend: `Mixer` records only the effects of load, play, pause, unpause and set-volume. A decode failure in `load` is unhandled in the code and is not modelled.
- The directory walk, `os.path.abspath`/`join` and `os.path.basename`: the walk is a flattened sequence of (name, absolute path) entries, and the base-name function is a parameter of `OnSelect`.
- `float(val)` on the slider's string: the volume arrives as a `real`.
- Album-art extraction (main.py:90-105): tag parsing and image resizing happen in foreign libraries, and every failure is caught and printed. The art display is either set or cleared, and the model does not track it.
- The `music_file` field (main.py:15) is assigned once and never read.
- `Player.Mixer.Play`: the "music not loaded" error is the backend's behaviour, assumed from its documentation rather than from the code in this repository.
