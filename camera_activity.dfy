/** The camera screen's flash and lens state. CameraX is reduced to the two values the
    screen hands it: the flash mode of the capture use case and the lens it binds. */
module Camera {
  import opened KotlinInt

  /** `ImageCapture.FLASH_MODE_*`. */
  const FLASH_MODE_AUTO: int32 := 0
  const FLASH_MODE_ON: int32 := 1
  const FLASH_MODE_OFF: int32 := 2

  /** `CameraSelector.LENS_FACING_*`. */
  const LENS_FACING_FRONT: int32 := 0
  const LENS_FACING_BACK: int32 := 1

  const FlashOnMessage: string := "Flash: On"
  const FlashAutoMessage: string := "Flash: Auto"
  const FlashOffMessage: string := "Flash: Off"

  predicate IsFlashMode(m: int32) {
    m == FLASH_MODE_AUTO || m == FLASH_MODE_ON || m == FLASH_MODE_OFF
  }

  predicate IsLens(l: int32) {
    l == LENS_FACING_FRONT || l == LENS_FACING_BACK
  }

  /** The `when` of `toggleFlash`: OFF turns ON, ON turns AUTO, anything else OFF. */
  function NextFlashMode(m: int32): (r: int32)
    ensures IsFlashMode(r)
    ensures m == FLASH_MODE_OFF ==> r == FLASH_MODE_ON
    ensures m == FLASH_MODE_ON ==> r == FLASH_MODE_AUTO
    ensures m == FLASH_MODE_AUTO ==> r == FLASH_MODE_OFF
    ensures !IsFlashMode(m) ==> r == FLASH_MODE_OFF
  {
    if m == FLASH_MODE_OFF then FLASH_MODE_ON
    else if m == FLASH_MODE_ON then FLASH_MODE_AUTO
    else FLASH_MODE_OFF
  }

  /** The toast shown after a toggle. */
  function FlashMessage(m: int32): (r: string)
    ensures r == FlashOnMessage <==> m == FLASH_MODE_ON
    ensures r == FlashAutoMessage <==> m == FLASH_MODE_AUTO
    ensures r == FlashOffMessage <==> m != FLASH_MODE_ON && m != FLASH_MODE_AUTO
  {
    if m == FLASH_MODE_ON then FlashOnMessage
    else if m == FLASH_MODE_AUTO then FlashAutoMessage
    else FlashOffMessage
  }

  /** The `if` of `switchCamera`: BACK turns FRONT, anything else BACK. */
  function NextLens(l: int32): (r: int32)
    ensures IsLens(r) && (r != l || !IsLens(l))
    ensures !IsLens(l) ==> r == LENS_FACING_BACK
  {
    if l == LENS_FACING_BACK then LENS_FACING_FRONT else LENS_FACING_BACK
  }

  /** Three toggles bring every valid flash mode back. */
  lemma ThreeTogglesRestore(m: int32)
    requires IsFlashMode(m)
    ensures NextFlashMode(NextFlashMode(NextFlashMode(m))) == m
  {
  }

  /** From any value at all, three toggles reach OFF, ON and AUTO in some order, so the
      cycle has exactly those three states. */
  lemma TogglesVisitAllModes(m: int32)
    ensures var a := NextFlashMode(m); var b := NextFlashMode(a); var c := NextFlashMode(b);
      a != b && b != c && a != c
  {
  }

  /** Two switches bring every valid lens back. */
  lemma TwoSwitchesRestore(l: int32)
    requires IsLens(l)
    ensures NextLens(NextLens(l)) == l
  {
  }

  /** The capture use case CameraX builds; only its flash mode is modelled. */
  class ImageCapture {
    var flashMode: int32

    constructor(mode: int32)
      ensures flashMode == mode
    {
      flashMode := mode;
    }
  }

  class CameraActivity {
    /** `imageCapture`, null until the camera is bound. */
    var imageCapture: ImageCapture?
    /** Whether `cameraProvider` has been obtained. */
    var providerReady: bool
    /** The lens requested at the last binding. */
    var boundLens: int32
    var lensFacing: int32
    var flashMode: int32

    /** The field initialisers: back lens, flash off, nothing bound yet. */
    constructor()
      ensures lensFacing == LENS_FACING_BACK && flashMode == FLASH_MODE_OFF
      ensures imageCapture == null && !providerReady
    {
      imageCapture := null;
      providerReady := false;
      boundLens := LENS_FACING_BACK;
      lensFacing := LENS_FACING_BACK;
      flashMode := FLASH_MODE_OFF;
    }

    /** `bindCameraUseCases`: without a provider nothing happens; otherwise a new capture
        use case takes the current flash mode and the current lens is bound. */
    method BindCameraUseCases()
      modifies this
      ensures lensFacing == old(lensFacing) && flashMode == old(flashMode)
      ensures providerReady == old(providerReady)
      ensures !providerReady ==> imageCapture == old(imageCapture) && boundLens == old(boundLens)
      ensures providerReady ==>
        imageCapture != null && fresh(imageCapture) &&
        imageCapture.flashMode == flashMode && boundLens == lensFacing
    {
      if !providerReady {
        return;
      }
      imageCapture := new ImageCapture(flashMode);
      boundLens := lensFacing;
    }

    /** The listener of `startCamera`: the provider arrives and the camera is bound. */
    method OnProviderReady()
      modifies this
      ensures providerReady
      ensures lensFacing == old(lensFacing) && flashMode == old(flashMode)
      ensures imageCapture != null && fresh(imageCapture) && imageCapture.flashMode == flashMode
      ensures boundLens == lensFacing
    {
      providerReady := true;
      BindCameraUseCases();
    }

    /** `toggleFlash`: the next mode of the cycle, passed on to the capture use case when
        there is one, and the toast that names it. */
    method ToggleFlash() returns (toast: string)
      modifies this, imageCapture
      ensures flashMode == NextFlashMode(old(flashMode))
      ensures imageCapture == old(imageCapture)
      ensures imageCapture != null ==> imageCapture.flashMode == flashMode
      ensures lensFacing == old(lensFacing) && boundLens == old(boundLens)
      ensures providerReady == old(providerReady)
      ensures toast == FlashMessage(flashMode)
    {
      flashMode := if flashMode == FLASH_MODE_OFF then FLASH_MODE_ON
        else if flashMode == FLASH_MODE_ON then FLASH_MODE_AUTO
        else FLASH_MODE_OFF;

      if imageCapture != null {
        imageCapture.flashMode := flashMode;
      }

      toast := if flashMode == FLASH_MODE_ON then FlashOnMessage
        else if flashMode == FLASH_MODE_AUTO then FlashAutoMessage
        else FlashOffMessage;
    }

    /** `switchCamera`: the other lens, then a fresh binding. */
    method SwitchCamera()
      modifies this
      ensures lensFacing == NextLens(old(lensFacing))
      ensures flashMode == old(flashMode) && providerReady == old(providerReady)
      ensures providerReady ==>
        imageCapture != null && fresh(imageCapture) &&
        imageCapture.flashMode == flashMode && boundLens == lensFacing
      ensures !providerReady ==> imageCapture == old(imageCapture) && boundLens == old(boundLens)
    {
      lensFacing := if lensFacing == LENS_FACING_BACK then LENS_FACING_FRONT else LENS_FACING_BACK;
      BindCameraUseCases();
    }
  }
}
