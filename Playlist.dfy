/** The pieces of playlist handling that do not depend on the player object:
    which directory entries become tracks, the display name of a track, the
    location a track is played from, and the cyclic advance of the current
    position. */
module Playlist {

  /** The location handed to the media engine for a track: the local file
      `name` inside the chosen `folder` (the source builds it from the
      folder's absolute file path; the model keeps the two parts apart). */
  datatype Url = LocalFile(folder: string, name: string)

  function ToLowerAscii(ch: char): char {
    if 'A' <= ch <= 'Z' then (ch as int + 32) as char else ch
  }

  /** `name` ends with `suffix`, ignoring the case of ASCII letters, which is
      how the directory listing applies its wildcard name filters. */
  predicate EndsWithIgnoringCase(name: string, suffix: string) {
    |suffix| <= |name| &&
    forall i :: 0 <= i < |suffix| ==>
      ToLowerAscii(name[|name| - |suffix| + i]) == ToLowerAscii(suffix[i])
  }

  /** The listing's name filters "*.mp3" and "*.ogg". */
  predicate IsAudioFile(name: string) {
    EndsWithIgnoringCase(name, ".mp3") || EndsWithIgnoringCase(name, ".ogg")
  }

  /** The file names of the listing that pass the filters, in listing order. */
  function AudioFiles(listing: seq<string>): (r: seq<string>)
    ensures |r| <= |listing|
    ensures forall name :: name in r <==> name in listing && IsAudioFile(name)
  {
    if listing == [] then []
    else
      var rest := AudioFiles(listing[1..]);
      assert listing == [listing[0]] + listing[1..];
      if IsAudioFile(listing[0]) then [listing[0]] + rest else rest
  }

  /** Listing order is kept: the files that pass come out in the order the
      listing has them, and filtering a concatenation filters each part. */
  lemma {:induction false} AudioFilesAppend(a: seq<string>, b: seq<string>)
    ensures AudioFiles(a + b) == AudioFiles(a) + AudioFiles(b)
  {
    if a == [] {
      assert a + b == b;
    } else {
      assert (a + b)[1..] == a[1..] + b;
      AudioFilesAppend(a[1..], b);
    }
  }

  /** The display name of a file: everything before its first '.'. */
  function BaseName(name: string): (r: string)
    ensures |r| <= |name| && r == name[..|r|]
    ensures '.' !in r
    ensures |r| < |name| ==> name[|r|] == '.'
  {
    if name == [] || name[0] == '.' then ""
    else [name[0]] + BaseName(name[1..])
  }

  /** The index after `index` in a playlist of `size` tracks, going round to
      the first track after the last. */
  function Next(index: int, size: int): (r: int)
    requires 0 <= index < size
    ensures 0 <= r < size
    ensures index < size - 1 ==> r == index + 1
    ensures index == size - 1 ==> r == 0
  {
    (index + 1) % size
  }

  /** The index reached from `index` after `k` advances. */
  function AdvanceBy(index: int, size: int, k: nat): (r: int)
    requires 0 <= index < size
    ensures 0 <= r < size
  {
    if k == 0 then index else Next(AdvanceBy(index, size, k - 1), size)
  }

  /** Advancing `a` times and then `b` times is advancing `a + b` times. */
  lemma {:induction false} AdvanceByAdd(index: int, size: int, a: nat, b: nat)
    requires 0 <= index < size
    ensures AdvanceBy(index, size, a + b) == AdvanceBy(AdvanceBy(index, size, a), size, b)
  {
    if b > 0 {
      AdvanceByAdd(index, size, a, b - 1);
    }
  }

  /** Before the end of the playlist is reached, `k` advances move the index
      exactly `k` tracks on. */
  lemma {:induction false} AdvanceByWithin(index: int, size: int, k: nat)
    requires 0 <= index && index + k < size
    ensures AdvanceBy(index, size, k) == index + k
  {
    if k > 0 {
      AdvanceByWithin(index, size, k - 1);
    }
  }

  /** As many advances as there are tracks bring the index back to where it
      started, and no smaller positive number of advances does. */
  lemma CycleCloses(index: int, size: int, k: nat)
    requires 0 <= index < size
    ensures AdvanceBy(index, size, size) == index
    ensures 0 < k < size ==> AdvanceBy(index, size, k) != index
  {
    // To the last track, round to the first, then on to `index` again.
    AdvanceByWithin(index, size, size - 1 - index);
    AdvanceByAdd(index, size, size - 1 - index, 1);
    AdvanceByWithin(0, size, index);
    AdvanceByAdd(index, size, size - index, index);
    if 0 < k < size {
      if index + k < size {
        AdvanceByWithin(index, size, k);
      } else {
        AdvanceByAdd(index, size, size - index, k - (size - index));
        AdvanceByWithin(0, size, k - (size - index));
      }
    }
  }
}
