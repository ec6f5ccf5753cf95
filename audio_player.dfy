/**
 * The audio player of src/components/AudioPlayer.tsx: play/pause, a waveform
 * of 60 bars that doubles as a seek bar, and a mute button beside a volume
 * slider.
 *
 * Times and the volume are `real`s. The hidden `<audio>` element is modelled
 * by the four properties the component writes: its position, whether it is
 * paused, its `muted` flag and its volume.
 */
module AudioPlayer {
  const BarCount: nat := 60

  /** `Math.max(0, Math.min(1, x))`. */
  function Clamp(x: real): (r: real)
    ensures 0.0 <= r <= 1.0
    ensures 0.0 <= x <= 1.0 ==> r == x
    ensures x < 0.0 ==> r == 0.0
    ensures x > 1.0 ==> r == 1.0
  {
    if x < 0.0 then 0.0 else if x > 1.0 then 1.0 else x
  }

  /** The fraction of the waveform's width at which the pointer is. */
  function SeekRatio(clientX: real, left: real, width: real): (r: real)
    requires width > 0.0
    ensures 0.0 <= r <= 1.0
    ensures clientX <= left ==> r == 0.0
    ensures clientX >= left + width ==> r == 1.0
  {
    var q := (clientX - left) / width;
    assert clientX >= left + width ==> q >= 1.0 by {
      assert q * width == clientX - left;
      assert (q - 1.0) * width == clientX - left - width;
    }
    Clamp(q)
  }

  /** `progress`: the fraction of the media played, 0 while the duration is unknown. */
  function Progress(currentTime: real, duration: real): real {
    if duration > 0.0 then currentTime / duration else 0.0
  }

  /** `i / BAR_COUNT <= progress`: whether bar `i` is drawn as played. */
  predicate IsPlayed(i: nat, progress: real) {
    (i as real) / (BarCount as real) <= progress
  }

  /** A position inside the media gives a progress between 0 and 1. */
  lemma ProgressBounds(currentTime: real, duration: real)
    requires 0.0 <= currentTime <= duration
    ensures 0.0 <= Progress(currentTime, duration) <= 1.0
  {
    if duration > 0.0 {
      assert currentTime / duration <= duration / duration;
    }
  }

  /** Seeking to a fraction of the media shows exactly that fraction as played. */
  lemma ProgressOfSeek(ratio: real, duration: real)
    requires duration > 0.0
    ensures Progress(ratio * duration, duration) == ratio
  {
  }

  /** The played bars are a prefix of the waveform: every bar left of a played bar is played. */
  lemma PlayedBarsPrefix(i: nat, j: nat, progress: real)
    requires j <= i && IsPlayed(i, progress)
    ensures IsPlayed(j, progress)
  {
    assert (j as real) / 60.0 <= (i as real) / 60.0;
  }

  /**
   * With progress `p` in `[0, 1]`, bar `i` is played exactly when
   * `i <= 60 * p`: the first bar always, every bar at the end.
   */
  lemma PlayedBarsCount(i: nat, progress: real)
    requires 0.0 <= progress <= 1.0
    ensures IsPlayed(i, progress) <==> (i as real) <= 60.0 * progress
    ensures IsPlayed(0, progress)
    ensures i < BarCount && progress == 1.0 ==> IsPlayed(i, progress)
  {
    assert (i as real) / 60.0 * 60.0 == i as real;
  }

  class Player {
    var isPlaying: bool
    var currentTime: real
    var duration: real
    var volume: real
    var muted: bool
    var isSeeking: bool
    /** Whether the `mousemove`/`mouseup` listeners a waveform press adds to the window are in place. */
    var dragging: bool
    var mediaTime: real
    var mediaPaused: bool
    var mediaMuted: bool
    var mediaVolume: real

    function Playback(): (bool, real, real, bool, bool, real, bool)
      reads this
    {
      (isPlaying, currentTime, duration, isSeeking, dragging, mediaTime, mediaPaused)
    }

    function Sound(): (real, bool, real, bool)
      reads this
    {
      (volume, muted, mediaVolume, mediaMuted)
    }

    /** The mute icon: crossed out when muted or at volume 0. */
    predicate ShownMuted()
      reads this
    {
      muted || volume == 0.0
    }

    /** Whether the element makes sound. */
    predicate Audible()
      reads this
    {
      !mediaMuted && mediaVolume > 0.0
    }

    /**
     * What the sound controls are meant to keep: the slider's volume is the
     * element's, and the element is muted only while the player says so
     * (and, if the player says so but the element is not, the volume is 0).
     */
    predicate SoundConsistent()
      reads this
    {
      0.0 <= volume <= 1.0 && mediaVolume == volume &&
      (!muted ==> !mediaMuted) &&
      (muted && !mediaMuted ==> volume == 0.0)
    }

    /** While the sound controls are consistent, the icon tells the truth: it shows muted exactly when nothing is heard. */
    lemma IconTruthful()
      requires SoundConsistent()
      ensures ShownMuted() <==> !Audible()
    {
    }

    constructor()
      ensures Playback() == (false, 0.0, 0.0, false, false, 0.0, true)
      ensures Sound() == (1.0, false, 1.0, false)
      ensures SoundConsistent()
    {
      isPlaying, currentTime, duration := false, 0.0, 0.0;
      isSeeking, dragging := false, false;
      mediaTime, mediaPaused := 0.0, true;
      volume, muted := 1.0, false;
      mediaVolume, mediaMuted := 1.0, false;
    }

    /** `loadedmetadata`: the duration becomes known. */
    method OnLoadedMetadata(d: real)
      modifies this
      ensures Playback() == (old(isPlaying), old(currentTime), d, old(isSeeking), old(dragging), old(mediaTime), old(mediaPaused))
      ensures Sound() == old(Sound())
    {
      duration := d;
    }

    /** `timeupdate` at position `t`: followed unless a seek is in progress. */
    method OnTimeUpdate(t: real)
      modifies this
      ensures !old(isSeeking) ==> currentTime == t
      ensures old(isSeeking) ==> currentTime == old(currentTime)
      ensures isPlaying == old(isPlaying) && duration == old(duration) && isSeeking == old(isSeeking)
      ensures dragging == old(dragging) && mediaPaused == old(mediaPaused) && mediaTime == t
      ensures Sound() == old(Sound())
    {
      mediaTime := t;
      if !isSeeking {
        currentTime := t;
      }
    }

    /** `ended`: the player stops showing itself as playing. */
    method OnEnded()
      modifies this
      ensures Playback() == (false, old(currentTime), old(duration), old(isSeeking), old(dragging), old(mediaTime), old(mediaPaused))
      ensures Sound() == old(Sound())
    {
      isPlaying := false;
    }

    /** The effect on a new `src`: not playing, back at 0. */
    method ChangeSource()
      modifies this
      ensures Playback() == (false, 0.0, old(duration), old(isSeeking), old(dragging), old(mediaTime), old(mediaPaused))
      ensures Sound() == old(Sound())
    {
      isPlaying := false;
      currentTime := 0.0;
    }

    /** `togglePlay`: pause while playing, play otherwise; the flag follows the element. */
    method TogglePlay()
      modifies this
      ensures isPlaying == !old(isPlaying) && mediaPaused == old(isPlaying)
      ensures currentTime == old(currentTime) && duration == old(duration) && mediaTime == old(mediaTime)
      ensures isSeeking == old(isSeeking) && dragging == old(dragging)
      ensures Sound() == old(Sound())
    {
      if isPlaying {
        mediaPaused := true;
        isPlaying := false;
      } else {
        mediaPaused := false;
        isPlaying := true;
      }
    }

    /**
     * `seekTo`: nothing while the duration is not positive; otherwise the
     * element and the shown time jump to the pointer's fraction of the
     * duration, which always lies within the media.
     */
    method SeekTo(clientX: real, left: real, width: real)
      requires width > 0.0
      modifies this
      ensures old(duration) <= 0.0 ==> Playback() == old(Playback())
      ensures old(duration) > 0.0 ==>
        currentTime == mediaTime == SeekRatio(clientX, left, width) * old(duration) &&
        0.0 <= currentTime <= old(duration) &&
        Progress(currentTime, old(duration)) == SeekRatio(clientX, left, width)
      ensures isPlaying == old(isPlaying) && duration == old(duration) && mediaPaused == old(mediaPaused)
      ensures isSeeking == old(isSeeking) && dragging == old(dragging)
      ensures Sound() == old(Sound())
    {
      if duration <= 0.0 {
        return;
      }
      var ratio := SeekRatio(clientX, left, width);
      var time := ratio * duration;
      ProgressOfSeek(ratio, duration);
      mediaTime := time;
      currentTime := time;
    }

    /** Pressing on the waveform: a seek starts, the window listens for moves and the release, and the pointer's place is sought. */
    method WaveformDown(clientX: real, left: real, width: real)
      requires width > 0.0
      modifies this
      ensures isSeeking && dragging
      ensures old(duration) > 0.0 ==> currentTime == mediaTime == SeekRatio(clientX, left, width) * old(duration)
      ensures old(duration) <= 0.0 ==> currentTime == old(currentTime) && mediaTime == old(mediaTime)
      ensures isPlaying == old(isPlaying) && duration == old(duration) && mediaPaused == old(mediaPaused)
      ensures Sound() == old(Sound())
    {
      isSeeking := true;
      dragging := true;
      SeekTo(clientX, left, width);
    }

    /** A window `mousemove`: seeks only while the listeners of a press are in place. */
    method MouseMove(clientX: real, left: real, width: real)
      requires width > 0.0
      modifies this
      ensures old(dragging) && old(duration) > 0.0 ==> currentTime == mediaTime == SeekRatio(clientX, left, width) * old(duration)
      ensures !old(dragging) ==> Playback() == old(Playback())
      ensures isPlaying == old(isPlaying) && duration == old(duration) && mediaPaused == old(mediaPaused)
      ensures isSeeking == old(isSeeking) && dragging == old(dragging)
      ensures Sound() == old(Sound())
    {
      if dragging {
        SeekTo(clientX, left, width);
      }
    }

    /** A window `mouseup`: the seek ends and the listeners go away. */
    method MouseUp()
      modifies this
      ensures old(dragging) ==> !isSeeking && !dragging
      ensures !old(dragging) ==> isSeeking == old(isSeeking) && !dragging
      ensures isPlaying == old(isPlaying) && currentTime == old(currentTime) && duration == old(duration)
      ensures mediaTime == old(mediaTime) && mediaPaused == old(mediaPaused)
      ensures Sound() == old(Sound())
    {
      if dragging {
        isSeeking := false;
        dragging := false;
      }
    }

    /** `toggleMute`: the player and the element both take the opposite of the player's flag. */
    method ToggleMute()
      modifies this
      ensures muted == !old(muted) && mediaMuted == muted
      ensures volume == old(volume) && mediaVolume == old(mediaVolume)
      ensures Playback() == old(Playback())
      ensures old(SoundConsistent()) ==> SoundConsistent()
    {
      mediaMuted := !muted;
      muted := !muted;
    }

    /**
     * `handleVolume` as written: the volume goes to the element and the
     * slider, 0 mutes the player, and any other value unmutes the player --
     * but not the element, which stays muted after `ToggleMute`.
     */
    method HandleVolumeAsWritten(v: real)
      requires 0.0 <= v <= 1.0
      modifies this
      ensures volume == v && mediaVolume == v && mediaMuted == old(mediaMuted)
      ensures v == 0.0 ==> muted
      ensures v != 0.0 ==> !muted
      ensures Playback() == old(Playback())
    {
      mediaVolume := v;
      volume := v;
      if v == 0.0 {
        muted := true;
      } else if muted {
        muted := false;
      }
    }

    /**
     * `handleVolume` with the unmute carried through to the element: the
     * volume goes to the element and the slider, 0 mutes the player, and any
     * other value unmutes both the player and the element.
     */
    method HandleVolume(v: real)
      requires 0.0 <= v <= 1.0
      modifies this
      ensures volume == v && mediaVolume == v
      ensures v == 0.0 ==> muted && mediaMuted == old(mediaMuted)
      ensures v != 0.0 ==> !muted && (old(muted) ==> !mediaMuted) && (!old(muted) ==> mediaMuted == old(mediaMuted))
      ensures Playback() == old(Playback())
      ensures old(SoundConsistent()) ==> SoundConsistent()
    {
      mediaVolume := v;
      volume := v;
      if v == 0.0 {
        muted := true;
      } else if muted {
        muted := false;
        mediaMuted := false;
      }
    }
  }

  /**
   * Muting and then raising the volume slider, as written: the icon shows
   * the player unmuted while the element stays silent.
   */
  method MuteThenRaiseVolume() returns (shownMuted: bool, audible: bool)
    ensures !shownMuted && !audible
  {
    var p := new Player();
    p.ToggleMute();
    p.HandleVolumeAsWritten(0.5);
    shownMuted := p.ShownMuted();
    audible := p.Audible();
  }

  /** The same steps with the corrected handler: the icon and the sound agree. */
  method MuteThenRaiseVolumeCorrected() returns (shownMuted: bool, audible: bool)
    ensures !shownMuted && audible
  {
    var p := new Player();
    p.ToggleMute();
    p.HandleVolume(0.5);
    shownMuted := p.ShownMuted();
    audible := p.Audible();
  }
}
