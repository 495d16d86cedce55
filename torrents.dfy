/** The completion filter of `get_completed_torrents` and the tag effect of
    `mark_torrent_as_done`, over the torrent records the Web API returns. */
module Torrents {
  import opened Failures
  import opened Text

  /** One entry of `/api/v2/torrents/info`: its hash and its tag string
      (qBittorrent reports a torrent's tags as one comma-separated string). */
  datatype Torrent = Torrent(hash: string, tags: string)

  /** The list comprehension `[t for t in torrents if done_tag not in t["tags"]]`. */
  function Untracked(ts: seq<Torrent>, doneTag: string): (r: seq<Torrent>)
    ensures |r| <= |ts|
    ensures forall t :: t in r ==> t in ts && !Contains(t.tags, doneTag)
  {
    if ts == [] then []
    else (if Contains(ts[0].tags, doneTag) then [] else [ts[0]]) + Untracked(ts[1..], doneTag)
  }

  /** Every torrent whose tag string lacks the done tag is kept. */
  lemma {:induction false} UntrackedKeeps(ts: seq<Torrent>, doneTag: string, t: Torrent)
    requires t in ts && !Contains(t.tags, doneTag)
    ensures t in Untracked(ts, doneTag)
  {
    if ts[0] != t {
      UntrackedKeeps(ts[1..], doneTag, t);
    }
  }

  /** The filter distributes over concatenation; with the singleton case this
      pins it down as the order-preserving selection of untagged torrents. */
  lemma {:induction false} UntrackedAppend(a: seq<Torrent>, b: seq<Torrent>, doneTag: string)
    ensures Untracked(a + b, doneTag) == Untracked(a, doneTag) + Untracked(b, doneTag)
  {
    if a == [] {
      assert a + b == b;
    } else {
      assert (a + b)[1..] == a[1..] + b;
      UntrackedAppend(a[1..], b, doneTag);
    }
  }

  /** On one torrent the filter keeps it exactly when its tags lack the done tag. */
  lemma UntrackedSingle(t: Torrent, doneTag: string)
    ensures Untracked([t], doneTag) == if Contains(t.tags, doneTag) then [] else [t]
  {
    assert [t][1..] == [];
  }

  /** Filtering twice is filtering once. */
  lemma {:induction false} UntrackedIdempotent(ts: seq<Torrent>, doneTag: string)
    ensures Untracked(Untracked(ts, doneTag), doneTag) == Untracked(ts, doneTag)
  {
    if ts != [] {
      var head := if Contains(ts[0].tags, doneTag) then [] else [ts[0]];
      UntrackedIdempotent(ts[1..], doneTag);
      UntrackedAppend(head, Untracked(ts[1..], doneTag), doneTag);
      if head != [] { UntrackedSingle(ts[0], doneTag); }
    }
  }

  /** A two-torrent case: with done tag "done", of h1 (no tags)
      and h2 (tagged "done") only h1 remains. */
  lemma UntrackedExample()
    ensures Untracked([Torrent("h1", ""), Torrent("h2", "done")], "done") == [Torrent("h1", "")]
  {
    var ts := [Torrent("h1", ""), Torrent("h2", "done")];
    assert OccursAt("done", "done", 0);
    assert !Contains("", "done");
    assert ts[1..] == [Torrent("h2", "done")];
    assert ts[1..][1..] == [];
  }

  /** `get_completed_torrents` after the GET: a non-200 status raises before
      any filtering, otherwise the untracked torrents of the body are returned. */
  function Completed(status: int, body: seq<Torrent>, doneTag: string): (r: Result<seq<Torrent>>)
    ensures r.Err? <==> status != 200
    ensures r.Err? ==> r.error == QueryFailed
    ensures r.Ok? ==> |r.value| <= |body|
    ensures r.Ok? ==> forall t :: t in r.value <==> t in body && !Contains(t.tags, doneTag)
  {
    if status != 200 then Err(QueryFailed)
    else
      var kept := Untracked(body, doneTag);
      assert forall t :: t in body && !Contains(t.tags, doneTag) ==> t in kept by {
        forall t | t in body && !Contains(t.tags, doneTag) ensures t in kept {
          UntrackedKeeps(body, doneTag, t);
        }
      }
      Ok(kept)
  }

  /** The hashes of a list of torrents, in order (`torrent["hash"]`). */
  function Hashes(ts: seq<Torrent>): (r: seq<string>)
    ensures |r| == |ts|
    ensures forall i :: 0 <= i < |ts| ==> r[i] == ts[i].hash
  {
    if ts == [] then [] else [ts[0].hash] + Hashes(ts[1..])
  }

  /** The remote's tag string after `addTags` adds `tag` to `tags`. */
  function AddTag(tags: string, tag: string): (r: string)
    ensures Contains(r, tag)
    ensures StartsWith(r, tags)
  {
    if tags == [] then
      assert OccursAt(tag, tag, 0);
      tag
    else
      ContainsSuffix(tags + ", ", tag);
      tags + ", " + tag
  }

  /** The remote after a successful `addTags` for `hash`: an unknown hash is ignored. */
  function Tagged(remote: map<string, string>, hash: string, tag: string): (r: map<string, string>)
    ensures r.Keys == remote.Keys
    ensures hash in remote ==> Contains(r[hash], tag)
    ensures forall h :: h in remote && h != hash ==> r[h] == remote[h]
    ensures forall h :: h in remote ==> StartsWith(r[h], remote[h])
  {
    if hash in remote then remote[hash := AddTag(remote[hash], tag)] else remote
  }

  /** What the GET returns: the torrents the remote lists as completed, in the
      order `completed` gives, each with its current tag string. */
  function Snapshot(remote: map<string, string>, completed: seq<string>): (r: seq<Torrent>)
    ensures |r| <= |completed|
    ensures forall t :: t in r ==> t.hash in remote && t.tags == remote[t.hash] && t.hash in completed
  {
    if completed == [] then []
    else
      (if completed[0] in remote then [Torrent(completed[0], remote[completed[0]])] else [])
        + Snapshot(remote, completed[1..])
  }

  /** Taking hashes distributes over concatenation. */
  lemma {:induction false} HashesAppend(a: seq<Torrent>, b: seq<Torrent>)
    ensures Hashes(a + b) == Hashes(a) + Hashes(b)
  {
    if a != [] {
      assert (a + b)[1..] == a[1..] + b;
      HashesAppend(a[1..], b);
    }
  }

  /** Every tag string contains the empty string, so an empty done tag
      filters out every torrent. */
  lemma UntrackedEmptyTag(ts: seq<Torrent>)
    ensures Untracked(ts, "") == []
  {
    var r := Untracked(ts, "");
    if r != [] {
      assert r[0] in r;
      ContainsEmpty(r[0].tags);
    }
  }

  /** No hash occurs twice. */
  predicate Distinct(s: seq<string>) {
    forall i, j :: 0 <= i < j < |s| ==> s[i] != s[j]
  }

  /** The hashes a poll marks when every addTags succeeds (a failing poll
      marks a prefix of them): those of the completed torrents that the
      remote knows and whose tag string lacks the done tag, in the order the
      API lists them. */
  function Pending(remote: map<string, string>, completed: seq<string>, doneTag: string): seq<string> {
    if completed == [] then []
    else
      (if completed[0] in remote && !Contains(remote[completed[0]], doneTag) then [completed[0]] else [])
        + Pending(remote, completed[1..], doneTag)
  }

  /** The pending hashes are the hashes of the filtered snapshot the GET returns. */
  lemma {:induction false} PendingFiltered(remote: map<string, string>, completed: seq<string>, doneTag: string)
    ensures Pending(remote, completed, doneTag) == Hashes(Untracked(Snapshot(remote, completed), doneTag))
  {
    if completed != [] {
      var c := completed[0];
      var head := if c in remote then [Torrent(c, remote[c])] else [];
      var rest := Snapshot(remote, completed[1..]);
      assert Snapshot(remote, completed) == head + rest;
      UntrackedAppend(head, rest, doneTag);
      if c in remote { UntrackedSingle(Torrent(c, remote[c]), doneTag); }
      HashesAppend(Untracked(head, doneTag), Untracked(rest, doneTag));
      PendingFiltered(remote, completed[1..], doneTag);
    }
  }

  /** A hash is pending exactly when the API lists it as completed, the
      remote knows it, and its tag string lacks the done tag. */
  lemma {:induction false} PendingMembers(remote: map<string, string>, completed: seq<string>, doneTag: string)
    ensures forall h :: h in Pending(remote, completed, doneTag) <==>
      h in completed && h in remote && !Contains(remote[h], doneTag)
  {
    if completed != [] {
      PendingMembers(remote, completed[1..], doneTag);
      assert completed == [completed[0]] + completed[1..];
    }
  }

  /** A duplicate-free listing gives a duplicate-free pending list. */
  lemma {:induction false} PendingDistinct(remote: map<string, string>, completed: seq<string>, doneTag: string)
    requires Distinct(completed)
    ensures Distinct(Pending(remote, completed, doneTag))
  {
    if completed != [] {
      var c := completed[0];
      var rest := completed[1..];
      assert Distinct(rest) by {
        forall i, j | 0 <= i < j < |rest| ensures rest[i] != rest[j] {
          assert rest[i] == completed[i + 1] && rest[j] == completed[j + 1];
        }
      }
      assert c !in rest by {
        forall i | 0 <= i < |rest| ensures rest[i] != c {
          assert rest[i] == completed[i + 1];
        }
      }
      PendingDistinct(remote, rest, doneTag);
      PendingMembers(remote, rest, doneTag);
      var tail := Pending(remote, rest, doneTag);
      var head := if c in remote && !Contains(remote[c], doneTag) then [c] else [];
      forall i, j | 0 <= i < j < |head + tail| ensures (head + tail)[i] != (head + tail)[j] {
        if i < |head| {
          assert (head + tail)[j] == tail[j - 1];
          assert tail[j - 1] in tail;
        } else {
          assert (head + tail)[i] == tail[i - |head|] && (head + tail)[j] == tail[j - |head|];
        }
      }
    }
  }
}
