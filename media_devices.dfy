/** The browser's media-capture interface as the camera page sees it: tracks that hold a camera,
    the device list from enumerateDevices(), and what getUserMedia() settles with. */
module MediaDevices {

  /** A MediaStreamTrack: its kind ("video", "audio") and whether it still holds the device. */
  class Track {
    const kind: string
    var live: bool

    constructor (kind: string)
      ensures this.kind == kind && live
    {
      this.kind := kind;
      live := true;
    }

    /** MediaStreamTrack.stop(): releases the device; stopping a stopped track changes nothing. */
    method Stop()
      modifies this
      ensures !live
    {
      live := false;
    }
  }

  /** One MediaDeviceInfo record of enumerateDevices() (its `label` is `deviceLabel`: `label` is a Dafny keyword). */
  datatype Device = Device(kind: string, deviceLabel: string)

  /** How enumerateDevices() settles: with the device list, or rejected. */
  datatype Enumeration = Listed(devices: seq<Device>) | EnumerationFailed

  /** How getUserMedia() settles: with a new stream whose tracks have the given kinds, or rejected
      with a DOMException of the given name and message. */
  datatype Acquisition = Granted(trackKinds: seq<string>) | Rejected(name: string, message: string)

  /** The browser's side of a granted getUserMedia(): a new stream of live tracks. */
  method NewStream(kinds: seq<string>) returns (tracks: seq<Track>)
    ensures |tracks| == |kinds|
    ensures forall i :: 0 <= i < |tracks| ==> fresh(tracks[i]) && tracks[i].live && tracks[i].kind == kinds[i]
  {
    tracks := [];
    while |tracks| < |kinds|
      invariant |tracks| <= |kinds|
      invariant forall i :: 0 <= i < |tracks| ==> fresh(tracks[i]) && tracks[i].live && tracks[i].kind == kinds[i]
    {
      var t := new Track(kinds[|tracks|]);
      tracks := tracks + [t];
    }
  }
}
