/** The object store for call recordings: the URL that `put` prints and `delete` takes apart. */
module ObjectStorage {
  import opened Domain

  predicate Occurs(text: string, marker: string, i: nat) {
    i + |marker| <= |text| && text[i..i + |marker|] == marker
  }

  /** The first occurrence at or after `from`. */
  function Find(text: string, marker: string, from: nat): (r: Option<nat>)
    requires from <= |text|
    ensures r.Some? ==> from <= r.value && Occurs(text, marker, r.value)
    ensures forall i: nat :: from <= i < (if r.Some? then r.value else |text| + 1) ==> !Occurs(text, marker, i)
    decreases |text| - from
  {
    if Occurs(text, marker, from) then Some(from)
    else if from < |text| then Find(text, marker, from + 1)
    else None
  }

  function Marker(bucket: string): string {
    "/" + bucket + "/"
  }

  function Url(scheme: string, endpoint: string, bucket: string, key: string): string {
    scheme + "://" + endpoint + "/" + bucket + "/" + key
  }

  /** What is left of a key or URL after the first marker. */
  function KeyIn(bucket: string, keyOrUrl: string): string {
    var at := Find(keyOrUrl, Marker(bucket), 0);
    if at.Some? then keyOrUrl[at.value + |Marker(bucket)|..] else keyOrUrl
  }

  class MinioStore {
    const scheme: string
    const endpoint: string
    const bucket: string
    var objects: map<string, seq<bv8>>

    constructor (endpoint: string, bucket: string, secure: bool)
      ensures this.scheme == (if secure then "https" else "http")
      ensures this.endpoint == endpoint && this.bucket == bucket && objects == map[]
    {
      this.scheme := if secure then "https" else "http";
      this.endpoint := endpoint;
      this.bucket := bucket;
      objects := map[];
    }

    method Put(key: string, data: seq<bv8>) returns (url: string)
      modifies this
      ensures objects == old(objects)[key := data] && url == Url(scheme, endpoint, bucket, key)
    {
      objects := objects[key := data];
      url := Url(scheme, endpoint, bucket, key);
    }

    method Delete(keyOrUrl: string)
      modifies this
      ensures objects == old(objects) - {KeyIn(bucket, keyOrUrl)}
    {
      objects := objects - {KeyIn(bucket, keyOrUrl)};
    }
  }

  // ---------- the round trip ----------

  /** A host or bucket name: not empty, no slash. */
  predicate PlainName(name: string) {
    name != "" && '/' !in name
  }

  lemma SlashBeforeBucket(scheme: string, endpoint: string, bucket: string, key: string, i: nat)
    requires scheme in {"http", "https"} && PlainName(endpoint) && PlainName(bucket)
    requires i < |scheme| + 3 + |endpoint| && Occurs(Url(scheme, endpoint, bucket, key), Marker(bucket), i)
    ensures i == |scheme| + 2
  {
    var url := Url(scheme, endpoint, bucket, key);
    var n := |scheme|;
    assert forall k :: 0 <= k < n ==> url[k] == scheme[k] && scheme[k] != '/';
    assert url[n] == ':' && url[n + 1] == '/' && url[n + 2] == '/';
    assert forall k :: n + 3 <= k < n + 3 + |endpoint| ==> url[k] == endpoint[k - n - 3];
    assert Marker(bucket)[0] == '/' && Marker(bucket)[1] == bucket[0] != '/';
    assert url[i] == url[i..i + |Marker(bucket)|][0] == '/';
    assert url[i + 1] == url[i..i + |Marker(bucket)|][1] == bucket[0];
  }

  /** A slash-free segment is told apart by the slash that ends it. */
  lemma SegmentsAgree(x: string, y: string, rest: string)
    requires '/' !in x && '/' !in y
    ensures y + "/" <= x + "/" + rest <==> x == y
  {
    var text := x + "/" + rest;
    assert text[..|x| + 1] == x + "/";
    if y + "/" <= text {
      assert text[..|y| + 1] == y + "/";
      assert text[|y|] == (y + "/")[|y|] == '/' && text[|x|] == '/';
      assert forall k :: 0 <= k < |y| ==> text[k] == text[..|y| + 1][k] == (y + "/")[k] == y[k];
      assert forall k :: 0 <= k < |x| ==> text[k] == x[k];
      assert |x| == |y|;
      assert text[..|x|] == x && text[..|y|] == y;
    }
  }

  /** The host segment reads as the bucket marker exactly when the two names are the same. */
  lemma HostSegmentIsMarker(scheme: string, endpoint: string, bucket: string, key: string)
    requires PlainName(endpoint) && PlainName(bucket)
    ensures Occurs(Url(scheme, endpoint, bucket, key), Marker(bucket), |scheme| + 2) <==> endpoint == bucket
  {
    var url, n, rest := Url(scheme, endpoint, bucket, key), |scheme| + 2, bucket + "/" + key;
    SegmentsAgree(endpoint, bucket, rest);
    var tail := endpoint + "/" + rest;
    assert url == (scheme + ":/") + ("/" + tail);
    assert url[n..] == "/" + tail;
    var marker := Marker(bucket);
    assert marker[1..] == bucket + "/";
    if Occurs(url, marker, n) {
      assert url[n..][..|marker|] == marker;
      assert tail == url[n..][1..] && tail[..|marker| - 1] == marker[1..];
    }
    if endpoint == bucket {
      assert url[n..][..|marker|] == marker;
      assert url[n..n + |marker|] == url[n..][..|marker|];
    }
  }

  lemma MarkerIsThere(scheme: string, endpoint: string, bucket: string, key: string)
    ensures var p := |scheme| + 3 + |endpoint|;
            && Occurs(Url(scheme, endpoint, bucket, key), Marker(bucket), p)
            && Url(scheme, endpoint, bucket, key)[p + |Marker(bucket)|..] == key
  {
    var url, p := Url(scheme, endpoint, bucket, key), |scheme| + 3 + |endpoint|;
    assert url == (scheme + "://" + endpoint) + (Marker(bucket) + key);
    assert url[p..] == Marker(bucket) + key;
    assert url[p..p + |Marker(bucket)|] == url[p..][..|Marker(bucket)|];
    assert url[p + |Marker(bucket)|..] == url[p..][|Marker(bucket)|..];
  }

  /** What `delete` makes of the URL that `put` printed, for every key, one with the marker in it too. */
  lemma KeyInUrl(scheme: string, endpoint: string, bucket: string, key: string)
    requires scheme in {"http", "https"} && PlainName(endpoint) && PlainName(bucket)
    ensures KeyIn(bucket, Url(scheme, endpoint, bucket, key)) ==
            if endpoint == bucket then bucket + "/" + key else key
  {
    var url, marker := Url(scheme, endpoint, bucket, key), Marker(bucket);
    var p := |scheme| + 3 + |endpoint|;
    MarkerIsThere(scheme, endpoint, bucket, key);
    HostSegmentIsMarker(scheme, endpoint, bucket, key);
    var at := Find(url, marker, 0);
    assert at.Some? && at.value <= p;
    if at.value < p {
      SlashBeforeBucket(scheme, endpoint, bucket, key, at.value);
      assert url == (scheme + ":/" + "/" + endpoint + "/") + (bucket + "/" + key);
      assert |scheme + ":/" + "/" + endpoint + "/"| == at.value + |marker|;
    }
  }

  /** Deleting what was put removes exactly that key, if and only if the endpoint and the bucket have
      different names. */
  lemma DeleteUndoesPut(scheme: string, endpoint: string, bucket: string, key: string)
    requires scheme in {"http", "https"} && PlainName(endpoint) && PlainName(bucket)
    ensures KeyIn(bucket, Url(scheme, endpoint, bucket, key)) == key <==> endpoint != bucket
  {
    KeyInUrl(scheme, endpoint, bucket, key);
    assert |bucket + "/" + key| > |key|;
  }

  /** With one name for both, the host segment is taken for the bucket. */
  lemma SameNameExample()
    ensures Url("http", "calls", "calls", "a.wav") == "http://calls/calls/a.wav"
    ensures KeyIn("calls", "http://calls/calls/a.wav") == "calls/a.wav"
  {
    assert Url("http", "calls", "calls", "a.wav") == "http://calls/calls/a.wav";
    KeyInUrl("http", "calls", "calls", "a.wav");
    assert "calls" + "/" + "a.wav" == "calls/a.wav";
  }

  /** A plain key is deleted as it is exactly when the marker does not occur in it. */
  lemma PlainKeyIsItself(bucket: string, key: string)
    ensures KeyIn(bucket, key) == key <==> forall i: nat :: !Occurs(key, Marker(bucket), i)
  {
  }
}
