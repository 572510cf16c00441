# MusicPlayer controller, modelled in Dafny

This project models the controller core of a small Qt desktop music player
(`MusicPlayer/MusicPlayer.cpp`). The user picks a folder. The player turns
the folder's `*.mp3`/`*.ogg` files into a playlist and a parallel list of
display names. Three buttons and the media engine then drive the current
track: play/pause, next track, and end of media, which moves on cyclically.
A 500 ms timer updates a progress bar. Time labels show `HH:MM:SS`.

The project has four modules:

- `Wrappers` holds the `Option` type.
- `TimeFormat` covers `FormatTime`. It is pure: a clock split, decimal
  rendering with zero padding, and a reader `ReadClock` that recovers the
  whole seconds from the text.
- `Playlist` holds what the playlist needs apart from the player object:
  - the name filter of the directory listing (`AudioFiles`);
  - the base name of a file (`BaseName`);
  - track locations (`Url`);
  - the cyclic advance `Next` and its iterate `AdvanceBy`.
- `Player` holds the class `MusicPlayer`. Its fields are the ones declared at
  `MusicPlayer/MusicPlayer.h:42-47` (`index`, `size`, `playList`,
  `nameList`). It adds the media engine's loaded source and playback state,
  and the track-name label and the progress bar value. `Valid()` is the
  object invariant. It says:
  - the lists are parallel, and `size` is their length;
  - `index >= 0`;
  - when there are tracks, `index` points at one of them, and both the
    engine's source and the name label hold that track.

  Every slot keeps `Valid()`.

In the model the media engine is a set of parameters: the media status, the
position and the duration. The file dialog is a parameter too: the chosen
folder path, which is empty when the dialog is cancelled. So is the
directory listing, a sequence of file names.

Behaviour of the code that the model keeps as it is:

- `FormatTime` produces `HH:MM:SS` and does not reduce the hours, so 100
  hours or more give an hours field wider than two digits.
- `UpdateProgress` divides by `duration()` with no check
  (`MusicPlayer/MusicPlayer.cpp:134`).
- Opening a folder with no audio files leaves the previous track loaded and
  playing (`MusicPlayer/MusicPlayer.cpp:68-79`). See "## Findings".
- `lyricsList` is never filled or read. See "## Left out".

## Model

| member | source | states |
|---|---|---|
| `TimeFormat.ClockOf` | MusicPlayer/MusicPlayer.cpp:142-146 | seconds < 60, minutes < 60, hours unbounded, and `hour*3600000 + minute*60000 + second*1000 == ms - ms % 1000` |
| `TimeFormat.ClockOfUnique` | MusicPlayer/MusicPlayer.cpp:142-146 | any fields with those bounds that give the same whole seconds are the fields computed: the split is unique |
| `TimeFormat.Digits` | MusicPlayer/MusicPlayer.cpp:147-149 | the decimal text of a value has at least one digit, no leading zero, and reads back as the value |
| `TimeFormat.Pad2` | MusicPlayer/MusicPlayer.cpp:147-149 | a field, left-padded with '0' to width 2 and no further, is all digits, reads back as the value, is exactly 2 long iff the value is below 100, and has no leading '0' when longer |
| `TimeFormat.FormatTime` | MusicPlayer/MusicPlayer.cpp:139-151 | the result is empty iff the count is negative; otherwise it has at least 8 characters with ':' at positions len-3 and len-6, and exactly 8 below 100 hours |
| `TimeFormat.ReadFormatTime` | MusicPlayer/MusicPlayer.cpp:139-151 | reading the text back gives the count truncated to whole seconds; a negative count's text reads as no time |
| `TimeFormat.FormatTimeSameText` | MusicPlayer/MusicPlayer.cpp:139-151 | two counts give the same text iff both are negative or both fall in the same whole second |
| `TimeFormat.FormatTimeFields` | MusicPlayer/MusicPlayer.cpp:147-150 | the text is the padded hours, ':', the padded minutes, ':', the padded seconds; the hours field reads back as the full hour count |
| `TimeFormat.FormatTimeExamples` | MusicPlayer/MusicPlayer.cpp:139-151 | -1 gives "", 0 gives "00:00:00", 61000 gives "00:01:01", 3723999 gives "01:02:03", 360000000 gives "100:00:00" |
| `Playlist.AudioFiles` | MusicPlayer/MusicPlayer.cpp:55-57 | a name is kept iff it is in the listing and matches `*.mp3` or `*.ogg`; the result is no longer than the listing |
| `Playlist.AudioFilesAppend` | MusicPlayer/MusicPlayer.cpp:55-57 | filtering keeps listing order: filtering a concatenation concatenates the filtered parts |
| `Playlist.BaseName` | MusicPlayer/MusicPlayer.cpp:64-65 | the display name is the prefix of the file name up to its first '.', contains no '.', and is the whole name when there is no '.' |
| `Playlist.Next` | MusicPlayer/MusicPlayer.cpp:120 | the advanced index stays in range, is the next index before the last track, and goes back to 0 after the last |
| `Playlist.AdvanceByAdd` | MusicPlayer/MusicPlayer.cpp:114-120 | `a` advances followed by `b` advances are `a + b` advances |
| `Playlist.AdvanceByWithin` | MusicPlayer/MusicPlayer.cpp:114-120 | before the end of the list is reached, `k` advances move exactly `k` tracks on |
| `Playlist.CycleCloses` | MusicPlayer/MusicPlayer.cpp:114-120 | `size` advances return the index to its start, and no smaller positive number of advances does |
| `Player.Toggled` | MusicPlayer/MusicPlayer.cpp:92-101 | the new state is Playing iff the old one was not, and never Stopped |
| `Player.ToggleTwice` | MusicPlayer/MusicPlayer.cpp:92-101 | once started, two presses give back the starting state |
| `Player.ProgressValue` | MusicPlayer/MusicPlayer.cpp:134 | the bar value `p` is the floor of `position*10000/duration`: `p*duration <= position*10000 < (p+1)*duration` |
| `Player.ProgressBounds` | MusicPlayer/MusicPlayer.cpp:134-135 | for `position <= duration` the value lies in [0, 10000]; it is 10000 at the end, and it never decreases as the position grows |
| `Player.MusicPlayer.constructor` | MusicPlayer/MusicPlayer.cpp:9-13 | the player starts with index 0, size 0, empty lists, nothing loaded, stopped, and the invariant holds |
| `Player.MusicPlayer.OpenFolder` | MusicPlayer/MusicPlayer.cpp:44-81 | a cancelled dialog changes nothing. Otherwise the lists become exactly the folder's audio files, in order: the i-th track is that file in the folder, and its name is its base name. `size` counts them. With tracks, index 0 is loaded, stopped, with progress 0. With none, everything else is left as it was |
| `Player.MusicPlayer.TogglePlay` | MusicPlayer/MusicPlayer.cpp:83-103 | with tracks and ready media (loaded, buffering, buffered) the state becomes `Toggled` of the old one; otherwise it is unchanged |
| `Player.MusicPlayer.CheckMediaStatus` | MusicPlayer/MusicPlayer.cpp:105-112 | only EndOfMedia changes anything: then the index advances cyclically, and that track is loaded, named and playing. The unguarded `% size` makes `size > 0` a precondition for EndOfMedia |
| `Player.MusicPlayer.CheckMediaStatusGuarded` | MusicPlayer/MusicPlayer.cpp:105-112 | as CheckMediaStatus, but an end of media with an empty playlist changes nothing |
| `Player.MusicPlayer.PlayNext` | MusicPlayer/MusicPlayer.cpp:114-128 | a no-op on an empty playlist. Otherwise the index advances cyclically, and that track is loaded, named and playing, with progress reset to 0. The lists are unchanged |
| `Player.MusicPlayer.UpdateProgress` | MusicPlayer/MusicPlayer.cpp:130-137 | while playing, the bar becomes `ProgressValue(position, duration)`; otherwise it keeps its value. The unguarded division makes a positive duration a precondition while playing |
| `Player.EmptyFolderWhilePlaying` | MusicPlayer/MusicPlayer.cpp:68-79 | a reachable valid state: the playlist is empty and `size == 0`, while an earlier folder's track is loaded and playing |

## Left out

- Lyrics: `lyricsList` (`MusicPlayer/MusicPlayer.h:44`) is declared, but no code shown fills it or reads it. No lyric parser or lookup is modelled.
- `UpdatePosition` and `UpdateVolume` (`MusicPlayer/MusicPlayer.h:34-35`) are declared with no body shown.
- The media engine is not modelled. `setSource` and `play`/`pause`/`stop` become the fields `source` and `state`. Changes of state that the engine makes on its own, such as stopping at the end of a track, are not modelled. `setPosition` and the duration the engine reports are parameters or left out.
- The text of the time labels and of the play button is left out. Only the track-name label and the progress bar value are kept.
- The timer, the signal/slot wiring, and the constructor's and destructor's allocation of Qt objects are left out.
- The folder dialog is a parameter: the chosen path, which is empty when the dialog is cancelled.
- The directory listing is a parameter: the folder's visible regular files, in the order the listing returns them. The listing's own sorting and its exclusion of hidden files and directories are not modelled.
- `Playlist.AudioFiles`: the name filters ignore case for ASCII letters only. Other Unicode case folding is not modelled.
- `Playlist.BaseName` is "the prefix before the first '.'". The path-to-URL conversion is the datatype `Url`, which keeps the folder and the file name.
- `TimeFormat.FormatTime`: the parameter is an unbounded integer. The 32-bit `int` parameter that receives the engine's 64-bit times, and its truncation, are not modelled.
- `Player.MusicPlayer.UpdateProgress`: `requires state == Playing ==> duration > 0` excludes a zero duration while playing, which the code divides by (line 134). The 64-bit product `position*10000` and its narrowing into the `int` bar value are not modelled. The position is taken as non-negative, as the engine reports it.

## Findings

| source | as written | input that shows it | evidently intended | confidence | as-written member | corrected member |
|---|---|---|---|---|---|---|
| MusicPlayer/MusicPlayer.cpp:105-107 | `index = (index + 1) % size` has no empty-playlist check. OpenFolder (lines 68-79) sets `size` to 0 for a folder with no audio files, but leaves the previous track loaded and playing | open a folder holding `song.mp3` and press play; then open a folder holding only `cover.jpg`. When `song.mp3` ends, EndOfMedia arrives with `size == 0`, and the slot divides by zero | ignore an end of media when the playlist is empty, as TogglePlay and PlayNext do | medium; not executed | `Player.MusicPlayer.CheckMediaStatus`, `Player.EmptyFolderWhilePlaying` | `Player.MusicPlayer.CheckMediaStatusGuarded` |
