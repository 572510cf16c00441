/** The music player's controller: the playlist it loads from a folder, the
    current track, and the slots that react to the buttons, the media engine
    and the progress timer. The media engine itself is not modelled; what it
    reports (media status, position, duration) arrives as parameters, and
    what the controller tells it (the source to play, play/pause/stop) is
    kept as the fields `source` and `state`. */
module Player {

  import opened Wrappers
  import opened Playlist

  /** The media engine's playback state. */
  datatype PlaybackState = Stopped | Playing | Paused

  /** The media engine's status of the loaded media. */
  datatype MediaStatus =
    | NoMedia | LoadingMedia | LoadedMedia | StalledMedia
    | BufferingMedia | BufferedMedia | EndOfMedia | InvalidMedia

  /** The statuses in which the play button is allowed to act. */
  predicate IsReady(status: MediaStatus) {
    status == LoadedMedia || status == BufferingMedia || status == BufferedMedia
  }

  /** The state the play button switches to: pause while playing, play
      otherwise. */
  function Toggled(s: PlaybackState): (r: PlaybackState)
    ensures r == Playing <==> s != Playing
    ensures r != Stopped
  {
    if s == Playing then Paused else Playing
  }

  /** Pressing the button twice, once the track has been started, gives back
      the state it started from. */
  lemma ToggleTwice(s: PlaybackState)
    requires s != Stopped
    ensures Toggled(Toggled(s)) == s
  {
  }

  /** The progress bar value, in ten-thousandths of the track: the largest
      `p` with `p * duration <= position * 10000`. */
  function ProgressValue(position: nat, duration: int): (p: nat)
    requires duration > 0
    ensures p * duration <= position * 10000 < (p + 1) * duration
  {
    var p := position * 10000 / duration;
    assert position * 10000 == p * duration + position * 10000 % duration;
    assert (p + 1) * duration == p * duration + duration;
    p
  }

  /** Multiplying by a positive duration keeps the order of the factors. */
  lemma ScaleMonotone(a: int, b: int, d: int)
    requires a <= b && d > 0
    ensures a * d <= b * d
  {
    assert b * d - a * d == (b - a) * d;
  }

  /** Within the track the bar stays in [0, 10000], reaches 10000 exactly at
      the end, and does not go back as the position advances. */
  lemma ProgressBounds(position: nat, later: nat, duration: int)
    requires duration > 0 && position <= later
    ensures later <= duration ==> ProgressValue(later, duration) <= 10000
    ensures later == duration ==> ProgressValue(later, duration) == 10000
    ensures ProgressValue(position, duration) <= ProgressValue(later, duration)
  {
    var p, q := ProgressValue(position, duration), ProgressValue(later, duration);
    if later <= duration && q > 10000 {
      ScaleMonotone(10001, q, duration);
      ScaleMonotone(later, duration, 10000);
      assert false;
    }
    if later == duration && q < 10000 {
      ScaleMonotone(q + 1, 10000, duration);
      assert false;
    }
    if p > q {
      ScaleMonotone(q + 1, p, duration);
      ScaleMonotone(position, later, 10000);
      assert false;
    }
  }

  class MusicPlayer {
    /** The current track's position in the playlist. */
    var index: int
    /** The number of tracks, as recorded by the last folder load. */
    var size: int
    /** The tracks' locations, in listing order. */
    var playList: seq<Url>
    /** The tracks' display names, parallel to playList. */
    var nameList: seq<string>
    /** The media the engine was last told to play. */
    var source: Option<Url>
    /** The engine's playback state as the controller last set it. */
    var state: PlaybackState
    /** The text of the track-name label. */
    var musicName: string
    /** The value of the progress bar, in ten-thousandths of the track. */
    var progress: int

    /** The lists are parallel and `size` counts them; whenever there are
        tracks, the index points at one and the engine and the name label
        hold that track. */
    ghost predicate Valid()
      reads this
    {
      size == |playList| == |nameList| && 0 <= index &&
      (size > 0 ==>
         index < size && source == Some(playList[index]) && musicName == nameList[index])
    }

    constructor ()
      ensures Valid()
      ensures index == 0 && size == 0 && playList == [] && nameList == []
      ensures source == None && state == Stopped && musicName == "" && progress == 0
    {
      index, size := 0, 0;
      playList, nameList := [], [];
      source, state := None, Stopped;
      musicName, progress := "", 0;
    }

    /** Loads the folder the dialog returned (`folder`, empty when the dialog
        was cancelled) whose files are `listing`: the playlist becomes exactly
        the folder's audio files, and the first of them is loaded, stopped. */
    method OpenFolder(folder: string, listing: seq<string>)
      requires Valid()
      modifies this
      ensures Valid()
      ensures folder == "" ==> unchanged(this)
      ensures folder != "" ==>
        var files := AudioFiles(listing);
        size == |files| &&
        (forall i :: 0 <= i < |files| ==>
           playList[i] == LocalFile(folder, files[i]) && nameList[i] == BaseName(files[i]))
      ensures folder != "" && size > 0 ==>
        index == 0 && source == Some(playList[0]) && musicName == nameList[0] &&
        progress == 0 && state == Stopped
      ensures folder != "" && size == 0 ==>
        index == old(index) && source == old(source) && state == old(state) &&
        musicName == old(musicName) && progress == old(progress)
    {
      if folder != "" {
        playList := [];
        nameList := [];
        var fileNames := AudioFiles(listing);
        for i := 0 to |fileNames|
          invariant |playList| == |nameList| == i
          invariant forall j :: 0 <= j < i ==>
            playList[j] == LocalFile(folder, fileNames[j]) && nameList[j] == BaseName(fileNames[j])
          invariant index == old(index) && source == old(source) && state == old(state)
          invariant musicName == old(musicName) && progress == old(progress)
        {
          playList := playList + [LocalFile(folder, fileNames[i])];
          nameList := nameList + [BaseName(fileNames[i])];
        }
        size := |playList|;
        if size > 0 {
          index := 0;
          source := Some(playList[0]);
          musicName := nameList[0];
          progress := 0;
          state := Stopped;
        }
      }
    }

    /** The play button: with tracks loaded and the media ready, pauses a
        playing track and plays a paused or stopped one; otherwise nothing. */
    method TogglePlay(status: MediaStatus)
      requires Valid()
      modifies this`state
      ensures Valid()
      ensures playList != [] && IsReady(status) ==> state == Toggled(old(state))
      ensures playList == [] || !IsReady(status) ==> state == old(state)
    {
      if playList == [] {
        return;
      }
      if IsReady(status) {
        if state == Playing {
          state := Paused;
        } else if state == Paused || state == Stopped {
          state := Playing;
        }
      }
    }

    /** The engine reports a new media status: at the end of a track, the
        next track (round to the first after the last) is loaded and played.
        The division by `size` has no guard, so an end of media while the
        playlist is empty is excluded here; see CheckMediaStatusGuarded. */
    method CheckMediaStatus(status: MediaStatus)
      requires Valid()
      requires status == EndOfMedia ==> size > 0
      modifies this
      ensures Valid()
      ensures playList == old(playList) && nameList == old(nameList) && size == old(size)
      ensures status != EndOfMedia ==> unchanged(this)
      ensures status == EndOfMedia ==>
        index == Next(old(index), size) && state == Playing &&
        source == Some(playList[index]) && musicName == nameList[index]
      ensures progress == old(progress)
    {
      if status == EndOfMedia {
        index := (index + 1) % size;
        source := Some(playList[index]);
        musicName := nameList[index];
        state := Playing;
      }
    }

    /** CheckMediaStatus with the empty-playlist guard the other slots have:
        an end of media with no tracks loaded changes nothing. */
    method CheckMediaStatusGuarded(status: MediaStatus)
      requires Valid()
      modifies this
      ensures Valid()
      ensures playList == old(playList) && nameList == old(nameList) && size == old(size)
      ensures status != EndOfMedia || size == 0 ==> unchanged(this)
      ensures status == EndOfMedia && size > 0 ==>
        index == Next(old(index), size) && state == Playing &&
        source == Some(playList[index]) && musicName == nameList[index]
      ensures progress == old(progress)
    {
      if status == EndOfMedia && size > 0 {
        index := (index + 1) % size;
        source := Some(playList[index]);
        musicName := nameList[index];
        state := Playing;
      }
    }

    /** The next button: with tracks loaded, moves to the next track (round to
        the first after the last), resets the progress and plays it. */
    method PlayNext()
      requires Valid()
      modifies this
      ensures Valid()
      ensures playList == old(playList) && nameList == old(nameList) && size == old(size)
      ensures playList == [] ==> unchanged(this)
      ensures playList != [] ==>
        index == Next(old(index), size) && state == Playing && progress == 0 &&
        source == Some(playList[index]) && musicName == nameList[index]
    {
      if playList == [] {
        return;
      }
      // The engine is stopped before the next track is loaded; it is
      // started again below.
      state := Stopped;
      index := (index + 1) % size;
      source := Some(playList[index]);
      musicName := nameList[index];
      progress := 0;
      state := Playing;
    }

    /** The timer tick: while playing, the progress bar shows the engine's
        `position` as ten-thousandths of its `duration`. The division has no
        guard, so a zero duration while playing is excluded. */
    method UpdateProgress(position: nat, duration: int)
      requires Valid()
      requires state == Playing ==> duration > 0
      modifies this`progress
      ensures Valid()
      ensures state == Playing ==> progress == ProgressValue(position, duration)
      ensures state != Playing ==> progress == old(progress)
    {
      if state == Playing {
        progress := position * 10000 / duration;
      }
    }
  }

  /** A reachable state in which the track of an earlier folder is still
      playing while the playlist is empty: loading a folder without audio
      files records size 0 but leaves the engine alone, so the end of that
      track reaches CheckMediaStatus with nothing to divide by. */
  method EmptyFolderWhilePlaying() returns (p: MusicPlayer)
    ensures p.Valid() && p.playList == [] && p.size == 0
    ensures p.state == Playing && p.source == Some(LocalFile("/music", "song.mp3"))
  {
    p := new MusicPlayer();
    assert IsAudioFile("song.mp3");
    assert AudioFiles(["song.mp3"]) == ["song.mp3"];
    p.OpenFolder("/music", ["song.mp3"]);
    p.TogglePlay(LoadedMedia);
    assert !IsAudioFile("cover.jpg") by {
      assert ToLowerAscii("cover.jpg"[6]) != ToLowerAscii(".mp3"[1]);
      assert ToLowerAscii("cover.jpg"[6]) != ToLowerAscii(".ogg"[1]);
    }
    assert AudioFiles(["cover.jpg"]) == [];
    p.OpenFolder("/pictures", ["cover.jpg"]);
  }
}
