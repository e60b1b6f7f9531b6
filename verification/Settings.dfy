/**
  The settings module (PONGAPP/settings.py): tables of selectable sizes and the
  currently selected entries. Only the screen-size selection is ever changed, by
  cycling forwards or backwards through its table; the paddle and ball selections
  are fixed module values.
*/
module Settings {
  datatype ScreenSize = ScreenSize(caption: string, width: int, height: int)

  /** A named size option: (displayed name, size in pixels). */
  datatype SizeOption = SizeOption(name: string, size: int)

  const ScreenSizes: seq<ScreenSize> :=
    [ScreenSize("600x300", 600, 300), ScreenSize("800x400", 800, 400), ScreenSize("Fullscreen", 0, 0)]
  const DefaultScreenSizeIndex := 1

  const PaddleSizes: seq<SizeOption> :=
    [SizeOption("Petit", 30), SizeOption("Moyen", 100), SizeOption("Grand", 200)]
  const CurrentPaddleSizeIndex := 1

  const BallSizes: seq<SizeOption> :=
    [SizeOption("Petite", 7), SizeOption("Moyenne", 15), SizeOption("Grande", 30)]
  const CurrentBallSizeIndex := 1

  /** The index after `i`, wrapping to the first entry (Python `%` with a positive divisor). */
  function NextIndex(i: int): (r: int)
    ensures 0 <= r < |ScreenSizes|
    ensures 0 <= i < |ScreenSizes| - 1 ==> r == i + 1
    ensures i == |ScreenSizes| - 1 ==> r == 0
  {
    (i + 1) % |ScreenSizes|
  }

  /** The index before `i`, wrapping to the last entry (Python `%` is never negative here). */
  function PreviousIndex(i: int): (r: int)
    ensures 0 <= r < |ScreenSizes|
    ensures 0 < i < |ScreenSizes| ==> r == i - 1
    ensures i == 0 ==> r == |ScreenSizes| - 1
  {
    (i - 1) % |ScreenSizes|
  }

  lemma PreviousUndoesNext(i: int)
    requires 0 <= i < |ScreenSizes|
    ensures PreviousIndex(NextIndex(i)) == i
    ensures NextIndex(PreviousIndex(i)) == i
  {
  }

  /** Cycling forwards once per table entry comes back to the start. */
  lemma NextCycles(i: int)
    requires 0 <= i < |ScreenSizes|
    ensures NextIndex(NextIndex(NextIndex(i))) == i
  {
  }

  /** The selected paddle height: PADDLE_SIZES at the current index. */
  function CurrentPaddleHeight(): (h: int)
    ensures h == PaddleSizes[CurrentPaddleSizeIndex].size && h == 100
  {
    PaddleSizes[CurrentPaddleSizeIndex].size
  }

  function CurrentPaddleName(): (name: string)
    ensures name == PaddleSizes[CurrentPaddleSizeIndex].name && name == "Moyen"
  {
    PaddleSizes[CurrentPaddleSizeIndex].name
  }

  /** The selected ball size: BALL_SIZES at the current index. */
  function CurrentBallSize(): (size: int)
    ensures size == BallSizes[CurrentBallSizeIndex].size && size == 15
  {
    BallSizes[CurrentBallSizeIndex].size
  }

  function CurrentBallName(): (name: string)
    ensures name == BallSizes[CurrentBallSizeIndex].name && name == "Moyenne"
  {
    BallSizes[CurrentBallSizeIndex].name
  }

  /** The module's mutable state: which screen size is selected. */
  class SettingsState {
    var screenSizeIndex: int

    ghost predicate Valid()
      reads this
    {
      0 <= screenSizeIndex < |ScreenSizes|
    }

    constructor ()
      ensures Valid() && screenSizeIndex == DefaultScreenSizeIndex
      ensures CurrentScreenSize() == (800, 400) && CurrentScreenSizeLabel() == "800x400"
    {
      screenSizeIndex := DefaultScreenSizeIndex;
    }

    /** The (width, height) of the selected screen size. */
    function CurrentScreenSize(): (size: (int, int))
      requires Valid()
      reads this
      ensures size.0 == ScreenSizes[screenSizeIndex].width
      ensures size.1 == ScreenSizes[screenSizeIndex].height
    {
      (ScreenSizes[screenSizeIndex].width, ScreenSizes[screenSizeIndex].height)
    }

    function CurrentScreenSizeLabel(): (caption: string)
      requires Valid()
      reads this
      ensures caption == ScreenSizes[screenSizeIndex].caption
    {
      ScreenSizes[screenSizeIndex].caption
    }

    /** Selects the next screen size (taille_ecran_suivante). */
    method NextScreenSize()
      modifies this
      ensures Valid()
      ensures screenSizeIndex == NextIndex(old(screenSizeIndex))
    {
      screenSizeIndex := NextIndex(screenSizeIndex);
    }

    /** Selects the previous screen size (taille_ecran_precedente). */
    method PreviousScreenSize()
      modifies this
      ensures Valid()
      ensures screenSizeIndex == PreviousIndex(old(screenSizeIndex))
    {
      screenSizeIndex := PreviousIndex(screenSizeIndex);
    }
  }
}
