/** The in-memory list of saved recordings, newest first. Persisting the
    list and deleting the audio file are outside the model. */
module RecordingStorage {

  /** A 128-bit UUID. */
  newtype Uuid = n: int | 0 <= n < 0x1_0000_0000_0000_0000_0000_0000_0000_0000

  /** A saved recording; only `id` matters to the list operations. */
  datatype Recording = Recording(id: Uuid, filename: string, date: real, duration: real)

  /** What reading the stored list yields: nothing stored, stored data that
      does not decode, or the decoded list. */
  datatype StoredData = Missing | Undecodable | Decoded(recordings: seq<Recording>)

  /** The ids of a list, in order. */
  function Ids(s: seq<Recording>): (ids: seq<Uuid>)
    ensures |ids| == |s|
    ensures forall i :: 0 <= i < |s| ==> ids[i] == s[i].id
  {
    if s == [] then [] else [s[0].id] + Ids(s[1..])
  }

  /** `removeAll { $0.id == id }`: the list without the recordings whose id
      is `id`. */
  function WithoutId(s: seq<Recording>, id: Uuid): (r: seq<Recording>)
    ensures |r| <= |s|
    ensures forall x :: x in r <==> x in s && x.id != id
  {
    if s == [] then []
    else if s[0].id == id then WithoutId(s[1..], id)
    else [s[0]] + WithoutId(s[1..], id)
  }

  /** Removal works piece by piece: deleting from a concatenation deletes
      from each part, so the survivors keep their relative order. */
  lemma {:induction false} WithoutIdConcat(a: seq<Recording>, b: seq<Recording>, id: Uuid)
    ensures WithoutId(a + b, id) == WithoutId(a, id) + WithoutId(b, id)
  {
    if a == [] {
      assert a + b == b;
    } else {
      assert (a + b)[1..] == a[1..] + b;
      WithoutIdConcat(a[1..], b, id);
    }
  }

  /** Exactly the recordings with a matching id disappear. */
  lemma {:induction false} WithoutIdLength(s: seq<Recording>, id: Uuid)
    ensures |WithoutId(s, id)| == |s| - multiset(Ids(s))[id]
  {
    if s != [] {
      assert Ids(s) == [s[0].id] + Ids(s[1..]);
      WithoutIdLength(s[1..], id);
    }
  }

  /** Deleting an id that is absent changes nothing. */
  lemma {:induction false} WithoutAbsentId(s: seq<Recording>, id: Uuid)
    requires id !in Ids(s)
    ensures WithoutId(s, id) == s
  {
    if s != [] {
      assert Ids(s) == [s[0].id] + Ids(s[1..]);
      WithoutAbsentId(s[1..], id);
    }
  }

  /** Deleting twice is the same as deleting once. */
  lemma WithoutIdIdempotent(s: seq<Recording>, id: Uuid)
    ensures WithoutId(WithoutId(s, id), id) == WithoutId(s, id)
  {
    var r := WithoutId(s, id);
    assert forall i :: 0 <= i < |r| ==> Ids(r)[i] == r[i].id && r[i] in r;
    WithoutAbsentId(r, id);
  }

  /** Saving does not deduplicate: the new id occurs once more than before. */
  lemma SaveAddsOneOccurrence(s: seq<Recording>, recording: Recording)
    ensures multiset(Ids([recording] + s))[recording.id] == multiset(Ids(s))[recording.id] + 1
  {
    assert Ids([recording] + s) == [recording.id] + Ids(s);
  }

  /** Deleting a recording just saved with a fresh id restores the list. */
  lemma DeleteUndoesSave(s: seq<Recording>, recording: Recording)
    requires recording.id !in Ids(s)
    ensures WithoutId([recording] + s, recording.id) == s
  {
    assert ([recording] + s)[1..] == s;
    WithoutAbsentId(s, recording.id);
  }

  /** The list the loader falls back to: empty unless stored data decodes. */
  function Loaded(stored: StoredData): (s: seq<Recording>)
    ensures stored.Decoded? ==> s == stored.recordings
    ensures !stored.Decoded? ==> s == []
  {
    if stored.Decoded? then stored.recordings else []
  }

  class RecordingStorage {
    var recordings: seq<Recording>

    /** Creating the storage loads whatever was stored. */
    constructor (stored: StoredData)
      ensures recordings == Loaded(stored)
    {
      recordings := Loaded(stored);
    }

    /** Inserts at index 0: the newest recording comes first. */
    method SaveRecording(recording: Recording)
      modifies this
      ensures recordings == [recording] + old(recordings)
      ensures |recordings| == |old(recordings)| + 1 && recordings[0] == recording
      ensures forall i :: 0 <= i < |old(recordings)| ==> recordings[i + 1] == old(recordings)[i]
    {
      recordings := [recording] + recordings;
    }

    /** Removes every recording whose id is the given recording's id. */
    method DeleteRecording(recording: Recording)
      modifies this
      ensures recordings == WithoutId(old(recordings), recording.id)
      ensures forall x :: x in recordings <==> x in old(recordings) && x.id != recording.id
      ensures |recordings| == |old(recordings)| - multiset(Ids(old(recordings)))[recording.id]
    {
      WithoutIdLength(recordings, recording.id);
      recordings := WithoutId(recordings, recording.id);
    }

    /** Replaces the list with the stored one, or with the empty list when
      nothing is stored or the stored data does not decode. */
    method LoadRecordings(stored: StoredData)
      modifies this
      ensures recordings == Loaded(stored)
    {
      match stored
      case Decoded(decoded) =>
        recordings := decoded;
      case _ =>
        recordings := [];
    }
  }
}
