/** The camera page (app.js): the front-camera test over the device list, the classification of
    getUserMedia failures, the photo gallery, and the camera session whose module-level state
    (`stream`, `currentFacingMode`, `hasFrontCamera`, `capturedPhotos`) becomes one object. */
module CameraApp {
  import opened Wrappers
  import opened Strings
  import opened MediaDevices

  // ---------------------------------------------------------------------------------------------
  // Facing mode
  // ---------------------------------------------------------------------------------------------

  /** The `facingMode` constraint: 'environment' (back camera) or 'user' (front camera). */
  datatype FacingMode = Environment | User

  /** The flip of switchCamera: 'environment' becomes 'user' and 'user' becomes 'environment'. */
  function Toggle(mode: FacingMode): (r: FacingMode)
    ensures r != mode
  {
    if mode == Environment then User else Environment
  }

  /** Two switches restore the original mode. */
  lemma ToggleTwice(mode: FacingMode)
    ensures Toggle(Toggle(mode)) == mode
  {
  }

  // ---------------------------------------------------------------------------------------------
  // Front-camera detection
  // ---------------------------------------------------------------------------------------------

  const VIDEO_INPUT := "videoinput"

  /** `devices.filter(device => device.kind === 'videoinput')`. */
  function VideoInputs(devices: seq<Device>): (r: seq<Device>)
    ensures |r| <= |devices|
    ensures forall d :: d in r <==> d in devices && d.kind == VIDEO_INPUT
  {
    if devices == [] then []
    else (if devices[0].kind == VIDEO_INPUT then [devices[0]] else []) + VideoInputs(devices[1..])
  }

  /** A label that, lower-cased, contains 'front' or 'user'. */
  predicate LabelHintsFront(text: string) {
    Includes(ToLower(text), "front") || Includes(ToLower(text), "user")
  }

  /** The front-camera test of checkForFrontCamera: more than one video input, or some video input
      whose label hints at a front camera. */
  function HasFrontCamera(devices: seq<Device>): (found: bool)
    ensures devices == [] ==> !found
    ensures found ==> exists d :: d in devices && d.kind == VIDEO_INPUT
  {
    var video := VideoInputs(devices);
    assert video != [] ==> video[0] in video;
    |video| > 1 || exists d :: d in video && LabelHintsFront(d.deviceLabel)
  }

  /** Filtering distributes over concatenation. */
  lemma {:induction false} VideoInputsAppend(a: seq<Device>, b: seq<Device>)
    ensures VideoInputs(a + b) == VideoInputs(a) + VideoInputs(b)
  {
    if a == [] {
      assert a + b == b;
    } else {
      var ab := a + b;
      var head := if a[0].kind == VIDEO_INPUT then [a[0]] else [];
      assert ab[0] == a[0] && ab[1..] == a[1..] + b;
      assert VideoInputs(ab) == head + VideoInputs(a[1..] + b);
      VideoInputsAppend(a[1..], b);
      assert head + (VideoInputs(a[1..]) + VideoInputs(b)) == (head + VideoInputs(a[1..])) + VideoInputs(b);
    }
  }

  /** More than one video input after filtering: two positions of the list hold video inputs. */
  lemma {:induction false} TwoVideoInputsFound(devices: seq<Device>) returns (i: nat, j: nat)
    requires |VideoInputs(devices)| > 1
    ensures i < j < |devices| && devices[i].kind == VIDEO_INPUT && devices[j].kind == VIDEO_INPUT
  {
    var rest := devices[1..];
    if devices[0].kind == VIDEO_INPUT {
      var d := VideoInputs(rest)[0];
      assert d in VideoInputs(rest);
      var k :| 0 <= k < |rest| && rest[k] == d;
      i, j := 0, k + 1;
    } else {
      var a, b := TwoVideoInputsFound(rest);
      i, j := a + 1, b + 1;
    }
  }

  /** Two positions holding video inputs leave more than one video input after filtering. */
  lemma {:induction false} TwoVideoInputsCounted(devices: seq<Device>, i: nat, j: nat)
    requires i < j < |devices| && devices[i].kind == VIDEO_INPUT && devices[j].kind == VIDEO_INPUT
    ensures |VideoInputs(devices)| > 1
  {
    var rest := devices[1..];
    assert rest[j - 1] == devices[j];
    if i == 0 {
      assert devices[j] in VideoInputs(rest);
    } else {
      assert rest[i - 1] == devices[i];
      TwoVideoInputsCounted(rest, i - 1, j - 1);
    }
  }

  /** More than one video input after filtering means two distinct positions of the list hold video
      inputs, and conversely. */
  lemma TwoVideoInputs(devices: seq<Device>)
    ensures |VideoInputs(devices)| > 1 <==>
      exists i, j :: 0 <= i < j < |devices| && devices[i].kind == VIDEO_INPUT && devices[j].kind == VIDEO_INPUT
  {
    if |VideoInputs(devices)| > 1 {
      var i, j := TwoVideoInputsFound(devices);
    }
    if exists i, j :: 0 <= i < j < |devices| && devices[i].kind == VIDEO_INPUT && devices[j].kind == VIDEO_INPUT {
      var i, j :| 0 <= i < j < |devices| && devices[i].kind == VIDEO_INPUT && devices[j].kind == VIDEO_INPUT;
      TwoVideoInputsCounted(devices, i, j);
    }
  }

  /** The front-camera result, stated over the unfiltered device list: true exactly when two
      positions hold video inputs or some video input has a hinting label. */
  lemma HasFrontCameraIff(devices: seq<Device>)
    ensures HasFrontCamera(devices) <==>
      || (exists i, j :: 0 <= i < j < |devices| && devices[i].kind == VIDEO_INPUT && devices[j].kind == VIDEO_INPUT)
      || (exists i :: 0 <= i < |devices| && devices[i].kind == VIDEO_INPUT && LabelHintsFront(devices[i].deviceLabel))
  {
    TwoVideoInputs(devices);
    if exists i :: 0 <= i < |devices| && devices[i].kind == VIDEO_INPUT && LabelHintsFront(devices[i].deviceLabel) {
      var i :| 0 <= i < |devices| && devices[i].kind == VIDEO_INPUT && LabelHintsFront(devices[i].deviceLabel);
      assert devices[i] in VideoInputs(devices);
    }
  }

  /** Devices of any kind other than 'videoinput' never affect the result. */
  lemma OtherKindsIgnored(before: seq<Device>, other: Device, after: seq<Device>)
    requires other.kind != VIDEO_INPUT
    ensures HasFrontCamera(before + [other] + after) == HasFrontCamera(before + after)
  {
    VideoInputsAppend(before + [other], after);
    VideoInputsAppend(before, [other]);
    VideoInputsAppend(before, after);
    assert VideoInputs([other]) == [];
  }

  /** The label test ignores letter case: a label containing any capitalisation of 'front' or
      'user' hints at a front camera. */
  lemma HintIgnoresCase(text: string, word: string)
    requires ToLower(word) == "front" || ToLower(word) == "user"
    requires Includes(text, word)
    ensures LabelHintsFront(text)
  {
    IncludesLowered(text, word);
  }

  // ---------------------------------------------------------------------------------------------
  // getUserMedia failures
  // ---------------------------------------------------------------------------------------------

  /** The four ways opening the camera can fail, as the page reports them to the user. */
  datatype CameraError = PermissionDenied | DeviceNotFound | DeviceBusy | Unknown(message: string)

  /** The classification of openCamera's catch block, by the DOMException's name. */
  function ClassifyError(name: string, message: string): (e: CameraError)
    ensures e == PermissionDenied <==> name == "NotAllowedError"
    ensures e == DeviceNotFound <==> name == "NotFoundError"
    ensures e == DeviceBusy <==> name == "NotReadableError"
    ensures e.Unknown? ==> e.message == message
  {
    if name == "NotAllowedError" then PermissionDenied
    else if name == "NotFoundError" then DeviceNotFound
    else if name == "NotReadableError" then DeviceBusy
    else Unknown(message)
  }

  // ---------------------------------------------------------------------------------------------
  // Photo gallery
  // ---------------------------------------------------------------------------------------------

  /** One captured photo: its id (from Date.now()), its encoded image (a data URL) and its
      human-readable capture time. */
  datatype Photo = Photo(id: int, dataUrl: string, timestamp: string)

  /** `photos.filter(photo => photo.id !== id)`. */
  function WithoutId(photos: seq<Photo>, id: int): (r: seq<Photo>)
    ensures |r| <= |photos|
    ensures forall i :: 0 <= i < |r| ==> r[i].id != id
  {
    if photos == [] then []
    else (if photos[0].id == id then [] else [photos[0]]) + WithoutId(photos[1..], id)
  }

  /** Deleting by id works piece by piece: the survivors of a concatenation are the survivors of
      each part, in the same order. */
  lemma {:induction false} WithoutIdAppend(a: seq<Photo>, b: seq<Photo>, id: int)
    ensures WithoutId(a + b, id) == WithoutId(a, id) + WithoutId(b, id)
  {
    if a == [] {
      assert a + b == b;
    } else {
      var ab := a + b;
      var head := if a[0].id == id then [] else [a[0]];
      assert ab[0] == a[0] && ab[1..] == a[1..] + b;
      assert WithoutId(ab, id) == head + WithoutId(a[1..] + b, id);
      WithoutIdAppend(a[1..], b, id);
      assert head + (WithoutId(a[1..], id) + WithoutId(b, id)) == (head + WithoutId(a[1..], id)) + WithoutId(b, id);
    }
  }

  /** The survivors are exactly the photos whose id differs from the deleted one. */
  lemma {:induction false} WithoutIdMembers(photos: seq<Photo>, id: int, p: Photo)
    ensures p in WithoutId(photos, id) <==> p in photos && p.id != id
  {
    if photos != [] {
      WithoutIdMembers(photos[1..], id, p);
      assert photos == [photos[0]] + photos[1..];
    }
  }

  /** Deleting an id that no photo carries leaves the gallery identical. */
  lemma {:induction false} WithoutAbsentId(photos: seq<Photo>, id: int)
    requires forall i :: 0 <= i < |photos| ==> photos[i].id != id
    ensures WithoutId(photos, id) == photos
  {
    if photos != [] {
      WithoutAbsentId(photos[1..], id);
      assert [photos[0]] + photos[1..] == photos;
    }
  }

  /** No two photos share an id. */
  predicate UniqueIds(photos: seq<Photo>) {
    forall i, j :: 0 <= i < j < |photos| ==> photos[i].id != photos[j].id
  }

  /** Deleting the id of a photo whose neighbours keep their photos removes exactly that photo. */
  lemma RemoveOnly(before: seq<Photo>, p: Photo, after: seq<Photo>)
    requires WithoutId(before, p.id) == before
    requires WithoutId(after, p.id) == after
    ensures WithoutId(before + [p] + after, p.id) == before + after
  {
    var front := before + [p];
    assert WithoutId(front, p.id) == before by {
      assert [p][1..] == [];
      assert WithoutId([p], p.id) == [];
      WithoutIdAppend(before, [p], p.id);
    }
    WithoutIdAppend(front, after, p.id);
  }

  /** When ids are unique, deleting the id of the photo at position k removes exactly that photo
      and leaves the others in their order. */
  lemma DeleteOne(photos: seq<Photo>, k: nat)
    requires UniqueIds(photos)
    requires k < |photos|
    ensures WithoutId(photos, photos[k].id) == photos[..k] + photos[k + 1..]
    ensures |WithoutId(photos, photos[k].id)| == |photos| - 1
  {
    var before, after := photos[..k], photos[k + 1..];
    assert forall i :: 0 <= i < |before| ==> before[i].id != photos[k].id by {
      forall i | 0 <= i < |before| ensures before[i].id != photos[k].id {
        assert before[i] == photos[i];
      }
    }
    assert forall i :: 0 <= i < |after| ==> after[i].id != photos[k].id by {
      forall i | 0 <= i < |after| ensures after[i].id != photos[k].id {
        assert after[i] == photos[k + 1 + i];
      }
    }
    WithoutAbsentId(before, photos[k].id);
    WithoutAbsentId(after, photos[k].id);
    assert photos == before + [photos[k]] + after;
    RemoveOnly(before, photos[k], after);
  }

  /** Appending a photo whose id is new keeps the ids unique. */
  lemma AppendKeepsUnique(photos: seq<Photo>, p: Photo)
    requires UniqueIds(photos)
    requires forall q :: q in photos ==> q.id != p.id
    ensures UniqueIds(photos + [p])
  {
    var s := photos + [p];
    forall i, j | 0 <= i < j < |s| ensures s[i].id != s[j].id {
      if j == |photos| {
        assert s[i] in photos;
      }
    }
  }

  // ---------------------------------------------------------------------------------------------
  // The camera session
  // ---------------------------------------------------------------------------------------------

  /** Stops every track of a stream: `stream.getTracks().forEach(track => track.stop())`. */
  method StopTracks(tracks: seq<Track>)
    modifies set t | t in tracks
    ensures forall t :: t in tracks ==> !t.live
  {
    var i := 0;
    while i < |tracks|
      invariant 0 <= i <= |tracks|
      invariant forall k :: 0 <= k < i ==> !tracks[k].live
    {
      tracks[i].Stop();
      i := i + 1;
    }
  }

  /** The page's camera state. `acquired` (ghost) holds every track the session was ever handed,
      so that "no track is left holding the camera" can be said. */
  class CameraSession {
    var stream: Option<seq<Track>>
    var facingMode: FacingMode
    var hasFrontCamera: bool
    var capturedPhotos: seq<Photo>
    ghost var acquired: set<Track>

    /** At most one stream: the tracks of the current stream are the only ones that may be live. */
    ghost predicate Valid()
      reads this, acquired
    {
      && (stream.Some? ==> forall t :: t in stream.value ==> t in acquired)
      && (forall t :: t in acquired && t.live ==> stream.Some? && t in stream.value)
    }

    /** The tracks that still hold a camera. */
    ghost function LiveTracks(): set<Track>
      reads this, acquired
    {
      set t | t in acquired && t.live
    }

    /** The tracks of the current stream, if any. */
    ghost function StreamTracks(): set<Track>
      reads this
    {
      if stream.Some? then set t | t in stream.value else {}
    }

    /** The state when the page loads. */
    constructor ()
      ensures Valid() && LiveTracks() == {} && acquired == {}
      ensures stream.None? && facingMode == Environment && !hasFrontCamera && capturedPhotos == []
    {
      stream := None;
      facingMode := Environment;
      hasFrontCamera := false;
      capturedPhotos := [];
      acquired := {};
    }

    /** checkForFrontCamera: on a listed device set, stores and returns the front-camera test; when
        enumeration fails, returns false and leaves the stored flag alone. */
    method CheckForFrontCamera(enumeration: Enumeration) returns (found: bool)
      modifies this`hasFrontCamera
      ensures found == (enumeration.Listed? && HasFrontCamera(enumeration.devices))
      ensures hasFrontCamera == if enumeration.Listed? then found else old(hasFrontCamera)
    {
      match enumeration
      case Listed(devices) =>
        hasFrontCamera := HasFrontCamera(devices);
        found := hasFrontCamera;
      case EnumerationFailed =>
        found := false;
    }

    /** closeCamera: with a stream, stops all its tracks and drops it; without one, changes nothing. */
    method CloseCamera()
      requires Valid()
      modifies this, acquired
      ensures Valid() && stream.None? && LiveTracks() == {}
      ensures old(stream).Some? ==> forall t :: t in old(stream).value ==> !t.live
      ensures old(stream).None? ==> unchanged(this) && unchanged(acquired)
      ensures facingMode == old(facingMode) && hasFrontCamera == old(hasFrontCamera)
      ensures capturedPhotos == old(capturedPhotos) && acquired == old(acquired)
    {
      if stream.Some? {
        StopTracks(stream.value);
        stream := None;
      }
    }

    /** openCamera: releases the current stream, asks getUserMedia for one in the current facing
        mode and, when granted, keeps it and re-runs the front-camera test; when refused, reports
        the classified error and holds no stream. */
    method OpenCamera(getUserMedia: FacingMode -> Acquisition, enumeration: Enumeration)
      returns (failure: Option<CameraError>)
      requires Valid()
      modifies this, acquired
      ensures Valid()
      ensures facingMode == old(facingMode) && capturedPhotos == old(capturedPhotos)
      ensures forall t :: t in old(acquired) ==> !t.live
      ensures match getUserMedia(old(facingMode))
        case Rejected(name, message) =>
          && failure == Some(ClassifyError(name, message))
          && stream.None? && LiveTracks() == {}
          && hasFrontCamera == old(hasFrontCamera)
          && acquired == old(acquired)
        case Granted(kinds) =>
          && failure.None?
          && stream.Some? && |stream.value| == |kinds|
          && (forall i :: 0 <= i < |kinds| ==> fresh(stream.value[i]) && stream.value[i].kind == kinds[i])
          && LiveTracks() == StreamTracks()
          && acquired == old(acquired) + StreamTracks()
          && hasFrontCamera == if enumeration.Listed? then HasFrontCamera(enumeration.devices) else old(hasFrontCamera)
    {
      if stream.Some? {
        CloseCamera();
      }
      match getUserMedia(facingMode)
      case Granted(kinds) =>
        var tracks := NewStream(kinds);
        stream := Some(tracks);
        acquired := acquired + set t | t in tracks;
        var _ := CheckForFrontCamera(enumeration);
        failure := None;
      case Rejected(name, message) =>
        failure := Some(ClassifyError(name, message));
    }

    /** switchCamera: flips the facing mode, whether or not a stream is open, then reopens. */
    method SwitchCamera(getUserMedia: FacingMode -> Acquisition, enumeration: Enumeration)
      returns (failure: Option<CameraError>)
      requires Valid()
      modifies this, acquired
      ensures Valid()
      ensures facingMode == Toggle(old(facingMode)) && capturedPhotos == old(capturedPhotos)
      ensures forall t :: t in old(acquired) ==> !t.live
      ensures match getUserMedia(Toggle(old(facingMode)))
        case Rejected(name, message) =>
          && failure == Some(ClassifyError(name, message))
          && stream.None? && LiveTracks() == {}
          && hasFrontCamera == old(hasFrontCamera)
          && acquired == old(acquired)
        case Granted(kinds) =>
          && failure.None?
          && stream.Some? && |stream.value| == |kinds|
          && (forall i :: 0 <= i < |kinds| ==> fresh(stream.value[i]) && stream.value[i].kind == kinds[i])
          && LiveTracks() == StreamTracks()
          && acquired == old(acquired) + StreamTracks()
          && hasFrontCamera == if enumeration.Listed? then HasFrontCamera(enumeration.devices) else old(hasFrontCamera)
    {
      facingMode := Toggle(facingMode);
      failure := OpenCamera(getUserMedia, enumeration);
    }

    /** capturePhoto: without a stream, the gallery is unchanged; with one, exactly one photo is
        appended and the earlier photos stay as they were. When the clock yields an id no photo
        carries yet, unique ids stay unique. */
    method CapturePhoto(id: int, dataUrl: string, timestamp: string)
      requires Valid()
      modifies this`capturedPhotos
      ensures Valid()
      ensures capturedPhotos ==
        if stream.None? then old(capturedPhotos) else old(capturedPhotos) + [Photo(id, dataUrl, timestamp)]
      ensures UniqueIds(old(capturedPhotos)) && (forall q :: q in old(capturedPhotos) ==> q.id != id) ==>
        UniqueIds(capturedPhotos)
    {
      if stream.None? {
        return;
      }
      if UniqueIds(capturedPhotos) && (forall q :: q in capturedPhotos ==> q.id != id) {
        AppendKeepsUnique(capturedPhotos, Photo(id, dataUrl, timestamp));
      }
      capturedPhotos := capturedPhotos + [Photo(id, dataUrl, timestamp)];
    }

    /** deletePhoto: the gallery becomes the photos whose id differs from `id`, in their order. */
    method DeletePhoto(id: int)
      requires Valid()
      modifies this`capturedPhotos
      ensures Valid()
      ensures capturedPhotos == WithoutId(old(capturedPhotos), id)
    {
      capturedPhotos := WithoutId(capturedPhotos, id);
    }

    /** The open/close button: closes when a stream exists, opens otherwise. */
    method OnOpenCameraClick(getUserMedia: FacingMode -> Acquisition, enumeration: Enumeration)
      returns (failure: Option<CameraError>)
      requires Valid()
      modifies this, acquired
      ensures Valid()
      ensures facingMode == old(facingMode) && capturedPhotos == old(capturedPhotos)
      ensures forall t :: t in old(acquired) ==> !t.live
      ensures old(stream).Some? ==>
        && stream.None? && failure.None? && LiveTracks() == {}
        && hasFrontCamera == old(hasFrontCamera) && acquired == old(acquired)
      ensures old(stream).None? ==> match getUserMedia(old(facingMode))
        case Rejected(name, message) =>
          && failure == Some(ClassifyError(name, message))
          && stream.None? && LiveTracks() == {}
          && hasFrontCamera == old(hasFrontCamera)
          && acquired == old(acquired)
        case Granted(kinds) =>
          && failure.None?
          && stream.Some? && |stream.value| == |kinds|
          && (forall i :: 0 <= i < |kinds| ==> fresh(stream.value[i]) && stream.value[i].kind == kinds[i])
          && LiveTracks() == StreamTracks()
          && acquired == old(acquired) + StreamTracks()
          && hasFrontCamera == if enumeration.Listed? then HasFrontCamera(enumeration.devices) else old(hasFrontCamera)
    {
      if stream.Some? {
        CloseCamera();
        failure := None;
      } else {
        failure := OpenCamera(getUserMedia, enumeration);
      }
    }

    /** The beforeunload handler: closes the camera if a stream exists. */
    method OnBeforeUnload()
      requires Valid()
      modifies this, acquired
      ensures Valid() && stream.None? && LiveTracks() == {}
      ensures old(stream).Some? ==> forall t :: t in old(stream).value ==> !t.live
      ensures old(stream).None? ==> unchanged(this) && unchanged(acquired)
      ensures capturedPhotos == old(capturedPhotos) && facingMode == old(facingMode)
      ensures hasFrontCamera == old(hasFrontCamera) && acquired == old(acquired)
    {
      if stream.Some? {
        CloseCamera();
      }
    }
  }
}
