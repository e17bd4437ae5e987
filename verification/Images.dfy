// The OCI index of a mirror: merging one tag with all its nested manifests, and the check that a tag is complete.
module Images {
  import opened Net

  // `tag` is the reference-name annotation, empty when absent; `rest` is everything else a descriptor carries.
  datatype Descriptor = Descriptor(digest: string, mediaType: string, tag: string, rest: string)

  // Blobs by digest, with their decoding as an index if they have one.
  type Blobs = map<string, Option<seq<Descriptor>>>
  type Rank = string -> nat

  predicate ImageIndex(d: Descriptor) {
    d.mediaType == "application/vnd.oci.image.index.v1+json"
    || d.mediaType == "application/vnd.docker.distribution.manifest.list.v2+json"
  }

  predicate Decodes(blobs: Blobs, d: Descriptor) { d.digest in blobs && blobs[d.digest].Some? }

  // What nests: the manifests of an index that can be read.
  function Children(blobs: Blobs, d: Descriptor): seq<Descriptor> {
    if ImageIndex(d) && Decodes(blobs, d) then blobs[d.digest].value else []
  }

  function Measure(rank: Rank, d: Descriptor): nat {
    if ImageIndex(d) then rank(d.digest) + 1 else 0
  }

  // No index nests itself: every nested index has a lower rank.
  ghost predicate Acyclic(blobs: Blobs, rank: Rank) {
    forall d, i :: 0 <= i < |Children(blobs, d)| ==> Measure(rank, Children(blobs, d)[i]) < Measure(rank, d)
  }

  ghost predicate Under(rank: Rank, ds: seq<Descriptor>, bound: nat) {
    forall i :: 0 <= i < |ds| ==> Measure(rank, ds[i]) < bound
  }

  // ---- What a descriptor reaches ----

  // Digests of all manifests nested in d, at any depth.
  ghost function Below(blobs: Blobs, rank: Rank, d: Descriptor): set<string>
    requires Acyclic(blobs, rank)
    decreases Measure(rank, d)
  {
    BelowAll(blobs, rank, Children(blobs, d), Measure(rank, d))
  }

  // Digests of some descriptors and of everything nested in them.
  ghost function BelowAll(blobs: Blobs, rank: Rank, ds: seq<Descriptor>, bound: nat): set<string>
    requires Acyclic(blobs, rank) && Under(rank, ds, bound)
    decreases bound, |ds|
  {
    if ds == [] then {}
    else
      var front, last := ds[..|ds| - 1], ds[|ds| - 1];
      BelowAll(blobs, rank, front, bound) + {last.digest} + Below(blobs, rank, last)
  }

  // Every index reached can be read.
  ghost predicate Readable(blobs: Blobs, rank: Rank, d: Descriptor)
    requires Acyclic(blobs, rank)
    decreases Measure(rank, d)
  {
    (ImageIndex(d) ==> Decodes(blobs, d)) && ReadableAll(blobs, rank, Children(blobs, d), Measure(rank, d))
  }

  ghost predicate ReadableAll(blobs: Blobs, rank: Rank, ds: seq<Descriptor>, bound: nat)
    requires Acyclic(blobs, rank) && Under(rank, ds, bound)
    decreases bound, |ds|
  {
    ds == [] || (ReadableAll(blobs, rank, ds[..|ds| - 1], bound) && Readable(blobs, rank, ds[|ds| - 1]))
  }

  lemma {:induction false} ReadablePrefix(blobs: Blobs, rank: Rank, ds: seq<Descriptor>, bound: nat, n: nat)
    requires Acyclic(blobs, rank) && Under(rank, ds, bound) && n <= |ds|
    ensures ReadableAll(blobs, rank, ds, bound) ==> ReadableAll(blobs, rank, ds[..n], bound)
    ensures BelowAll(blobs, rank, ds[..n], bound) <= BelowAll(blobs, rank, ds, bound)
    decreases |ds|
  {
    if n < |ds| {
      ReadablePrefix(blobs, rank, ds[..|ds| - 1], bound, n);
      assert ds[..|ds| - 1][..n] == ds[..n];
    } else {
      assert ds[..n] == ds;
    }
  }

  // ---- Appending nested manifests ----

  function Digests(ds: seq<Descriptor>): set<string> {
    set d | d in ds :: d.digest
  }

  lemma DigestsAppend(ds: seq<Descriptor>, d: Descriptor)
    ensures Digests(ds + [d]) == Digests(ds) + {d.digest}
  {
    assert forall e :: e in ds + [d] <==> e in ds || e == d;
  }

  // A descriptor as some index blob has it.
  ghost predicate FromBlobs(blobs: Blobs, d: Descriptor) {
    exists parent :: d in Children(blobs, parent)
  }

  // The list only grows at its end, by nested descriptors whose digest it did not list.
  ghost predicate Extends(blobs: Blobs, target: seq<Descriptor>, longer: seq<Descriptor>) {
    && target <= longer
    && forall i :: |target| <= i < |longer| ==> longer[i].digest !in Digests(longer[..i]) && FromBlobs(blobs, longer[i])
  }

  lemma ExtendsStep(blobs: Blobs, target: seq<Descriptor>, d: Descriptor)
    requires d.digest !in Digests(target) && FromBlobs(blobs, d)
    ensures Extends(blobs, target, target + [d])
  {
    assert (target + [d])[..|target|] == target;
  }

  lemma ExtendsTwice(blobs: Blobs, a: seq<Descriptor>, b: seq<Descriptor>, c: seq<Descriptor>)
    requires Extends(blobs, a, b) && Extends(blobs, b, c)
    ensures Extends(blobs, a, c)
  {
    forall i | |a| <= i < |c|
      ensures c[i].digest !in Digests(c[..i]) && FromBlobs(blobs, c[i])
    {
      if i < |b| {
        assert c[..i] == b[..i] && c[i] == b[i];
      }
    }
  }

  lemma {:induction false} Next(blobs: Blobs, rank: Rank, ds: seq<Descriptor>, bound: nat, i: nat)
    requires Acyclic(blobs, rank) && Under(rank, ds, bound) && i < |ds|
    ensures BelowAll(blobs, rank, ds[..i + 1], bound)
         == BelowAll(blobs, rank, ds[..i], bound) + {ds[i].digest} + Below(blobs, rank, ds[i])
    ensures ReadableAll(blobs, rank, ds[..i + 1], bound)
            <==> ReadableAll(blobs, rank, ds[..i], bound) && Readable(blobs, rank, ds[i])
  {
    assert ds[..i + 1][..i] == ds[..i];
  }

  // One nested manifest, listed unless its digest is, and what nests in it.
  method AppendChild(blobs: Blobs, ghost rank: Rank, target: seq<Descriptor>, child: Descriptor, seen: set<string>)
    returns (ok: bool, longer: seq<Descriptor>, marked: set<string>)
    requires Acyclic(blobs, rank) && seen == Digests(target) && FromBlobs(blobs, child)
    ensures ok <==> Readable(blobs, rank, child)
    ensures ok ==>
              && marked == Digests(longer) == seen + {child.digest} + Below(blobs, rank, child)
              && Extends(blobs, target, longer)
    decreases Measure(rank, child), 2
  {
    var listed, known := target, seen;
    if child.digest !in seen {
      ExtendsStep(blobs, target, child);
      DigestsAppend(target, child);
      listed, known := target + [child], seen + {child.digest};
    }
    ok, longer, marked := AppendIndexChildren(blobs, rank, listed, child, known);
    if ok {
      ExtendsTwice(blobs, target, listed, longer);
    }
  }

  method AppendIndexChildren(blobs: Blobs, ghost rank: Rank, target: seq<Descriptor>, d: Descriptor, seen: set<string>)
    returns (ok: bool, longer: seq<Descriptor>, marked: set<string>)
    requires Acyclic(blobs, rank) && seen == Digests(target)
    ensures ok <==> Readable(blobs, rank, d)
    ensures ok ==> marked == Digests(longer) == seen + Below(blobs, rank, d) && Extends(blobs, target, longer)
    decreases Measure(rank, d), 1
  {
    if !ImageIndex(d) {
      return true, target, seen;
    }
    if !Decodes(blobs, d) {
      return false, target, seen;
    }
    var children := blobs[d.digest].value;
    assert children == Children(blobs, d);
    ok, longer, marked := AppendAll(blobs, rank, target, d, children, seen);
  }

  // The list after some manifests of an index.
  ghost predicate Listed(blobs: Blobs, rank: Rank, target: seq<Descriptor>, done: seq<Descriptor>, bound: nat,
                         longer: seq<Descriptor>, marked: set<string>)
    requires Acyclic(blobs, rank) && Under(rank, done, bound)
  {
    && marked == Digests(longer) == Digests(target) + BelowAll(blobs, rank, done, bound)
    && ReadableAll(blobs, rank, done, bound) && Extends(blobs, target, longer)
  }

  lemma {:induction false} ListedStep(blobs: Blobs, rank: Rank, target: seq<Descriptor>, ds: seq<Descriptor>, i: nat,
                                      bound: nat, longer: seq<Descriptor>, marked: set<string>, more: seq<Descriptor>,
                                      all: set<string>)
    requires Acyclic(blobs, rank) && Under(rank, ds, bound) && i < |ds|
             && Listed(blobs, rank, target, ds[..i], bound, longer, marked)
    requires Readable(blobs, rank, ds[i]) && Extends(blobs, longer, more)
    requires all == Digests(more) == marked + {ds[i].digest} + Below(blobs, rank, ds[i])
    ensures Listed(blobs, rank, target, ds[..i + 1], bound, more, all)
  {
    Next(blobs, rank, ds, bound, i);
    ExtendsTwice(blobs, target, longer, more);
  }

  // The manifests of one index, in order.
  method AppendAll(blobs: Blobs, ghost rank: Rank, target: seq<Descriptor>, ghost d: Descriptor,
                   children: seq<Descriptor>, seen: set<string>)
    returns (ok: bool, longer: seq<Descriptor>, marked: set<string>)
    requires Acyclic(blobs, rank) && children == Children(blobs, d) && seen == Digests(target)
    ensures ok <==> ReadableAll(blobs, rank, children, Measure(rank, d))
    ensures ok ==> Listed(blobs, rank, target, children, Measure(rank, d), longer, marked)
    decreases Measure(rank, d), 0
  {
    longer, marked := target, seen;
    ghost var bound := Measure(rank, d);
    for i := 0 to |children|
      invariant Listed(blobs, rank, target, children[..i], bound, longer, marked)
    {
      assert FromBlobs(blobs, children[i]);
      var read, more, all := AppendChild(blobs, rank, longer, children[i], marked);
      if !read {
        Next(blobs, rank, children, bound, i);
        ReadablePrefix(blobs, rank, children, bound, i + 1);
        return false, longer, marked;
      }
      ListedStep(blobs, rank, target, children, i, bound, longer, marked, more, all);
      longer, marked := more, all;
    }
    assert children[..|children|] == children;
    ok := true;
  }

  // ---- Completeness ----

  datatype Verdict = Complete | Incomplete | Undecodable

  // Something a published index lacks: an unreadable or absent blob, or a digest that is not listed.
  method PublishedIndexComplete(blobs: Blobs, ghost rank: Rank, d: Descriptor, published: set<string>)
    returns (r: Verdict)
    requires Acyclic(blobs, rank)
    ensures r == Complete <==> Readable(blobs, rank, d) && Below(blobs, rank, d) <= published
    ensures r == Undecodable ==> !Readable(blobs, rank, d)
    decreases Measure(rank, d)
  {
    if !ImageIndex(d) {
      return Complete;
    }
    if d.digest !in blobs {
      return Incomplete;
    }
    if blobs[d.digest].None? {
      return Undecodable;
    }
    var children := blobs[d.digest].value;
    assert children == Children(blobs, d);
    ghost var bound := Measure(rank, d);
    for i := 0 to |children|
      invariant BelowAll(blobs, rank, children[..i], bound) <= published
                && ReadableAll(blobs, rank, children[..i], bound)
    {
      Next(blobs, rank, children, bound, i);
      ReadablePrefix(blobs, rank, children, bound, i + 1);
      if children[i].digest !in published {
        return Incomplete;
      }
      r := PublishedIndexComplete(blobs, rank, children[i], published);
      if r != Complete {
        return;
      }
    }
    assert children[..|children|] == children;
    r := Complete;
  }

  // ---- Merging ----

  // Other tags' descriptors, in order.
  function Others(ds: seq<Descriptor>, tag: string): seq<Descriptor> {
    if ds == [] then []
    else
      var front, last := Others(ds[..|ds| - 1], tag), ds[|ds| - 1];
      if last.tag != tag then front + [last] else front
  }

  predicate Tagged(ds: seq<Descriptor>, tag: string) {
    exists i :: 0 <= i < |ds| && ds[i].tag == tag
  }

  function FirstTagged(ds: seq<Descriptor>, tag: string): (r: Option<Descriptor>)
    ensures r.Some? <==> Tagged(ds, tag)
  {
    if ds == [] then None else if ds[0].tag == tag then Some(ds[0]) else
      var r := FirstTagged(ds[1..], tag);
      assert Tagged(ds, tag) ==> Tagged(ds[1..], tag);
      r
  }

  // Digests the incoming tag brings along: its own and everything nested.
  ghost function Closure(blobs: Blobs, rank: Rank, incoming: seq<Descriptor>, tag: string): set<string>
    requires Acyclic(blobs, rank)
  {
    if incoming == [] then {}
    else
      var front, last := Closure(blobs, rank, incoming[..|incoming| - 1], tag), incoming[|incoming| - 1];
      if last.tag == tag then front + {last.digest} + Below(blobs, rank, last) else front
  }

  ghost predicate AllReadable(blobs: Blobs, rank: Rank, incoming: seq<Descriptor>, tag: string)
    requires Acyclic(blobs, rank)
  {
    forall i :: 0 <= i < |incoming| && incoming[i].tag == tag ==> Readable(blobs, rank, incoming[i])
  }

  method KeepOthers(existing: seq<Descriptor>, tag: string) returns (kept: seq<Descriptor>, seen: set<string>)
    ensures kept == Others(existing, tag) && seen == Digests(kept) && !Tagged(kept, tag)
  {
    kept := [];
    for i := 0 to |existing|
      invariant kept == Others(existing[..i], tag) && !Tagged(kept, tag)
    {
      assert existing[..i + 1][..i] == existing[..i];
      if existing[i].tag != tag {
        kept := kept + [existing[i]];
      }
    }
    assert existing[..|existing|] == existing;
    seen := {};
    for i := 0 to |kept|
      invariant seen == Digests(kept[..i])
    {
      assert kept[..i + 1] == kept[..i] + [kept[i]];
      DigestsAppend(kept[..i], kept[i]);
      seen := seen + {kept[i].digest};
    }
    assert kept[..|kept|] == kept;
  }

  lemma {:induction false} FirstTaggedGrows(a: seq<Descriptor>, b: seq<Descriptor>, tag: string)
    requires a <= b && Tagged(a, tag)
    ensures FirstTagged(b, tag) == FirstTagged(a, tag)
  {
    if a[0].tag != tag {
      assert a[1..] <= b[1..];
      FirstTaggedGrows(a[1..], b[1..], tag);
    }
  }

  lemma {:induction false} FirstTaggedAppend(ds: seq<Descriptor>, d: Descriptor, tag: string)
    requires !Tagged(ds, tag)
    ensures FirstTagged(ds + [d], tag) == if d.tag == tag then Some(d) else None
  {
    if ds == [] {
      assert (ds + [d])[1..] == [];
    } else {
      assert !Tagged(ds[1..], tag);
      FirstTaggedAppend(ds[1..], d, tag);
      assert (ds + [d])[1..] == ds[1..] + [d];
    }
  }

  // The first incoming descriptor of the source tag, under the destination tag.
  function Retagged(incoming: seq<Descriptor>, sourceTag: string, destinationTag: string): Option<Descriptor> {
    match FirstTagged(incoming, sourceTag)
    case Some(d) => Some(d.(tag := destinationTag))
    case None => None
  }

  /** What a merge makes: every other descriptor kept in order, the destination tag moved, and exactly the digests it
      brings. */
  ghost predicate Merges(blobs: Blobs, rank: Rank, existing: seq<Descriptor>, incoming: seq<Descriptor>,
                         sourceTag: string, destinationTag: string, merged: seq<Descriptor>) {
    && Acyclic(blobs, rank) && Others(existing, destinationTag) <= merged
    && Digests(merged) == Digests(Others(existing, destinationTag)) + Closure(blobs, rank, incoming, sourceTag)
    && FirstTagged(merged, destinationTag) == Retagged(incoming, sourceTag, destinationTag)
    && forall i :: |Others(existing, destinationTag)| <= i < |merged| ==>
         FromBlobs(blobs, merged[i]) || Incoming(incoming, sourceTag, destinationTag, merged[i])
  }

  predicate Incoming(incoming: seq<Descriptor>, sourceTag: string, destinationTag: string, d: Descriptor) {
    exists k :: 0 <= k < |incoming| && incoming[k].tag == sourceTag && d == incoming[k].(tag := destinationTag)
  }

  lemma IncomingGrows(incoming: seq<Descriptor>, i: nat, sourceTag: string, destinationTag: string, d: Descriptor)
    requires i < |incoming| && Incoming(incoming[..i], sourceTag, destinationTag, d)
    ensures Incoming(incoming[..i + 1], sourceTag, destinationTag, d)
  {
    var k :| 0 <= k < i && incoming[..i][k].tag == sourceTag && d == incoming[..i][k].(tag := destinationTag);
    assert incoming[..i + 1][k] == incoming[..i][k];
  }

  lemma NewOnes(blobs: Blobs, incoming: seq<Descriptor>, i: nat, sourceTag: string, destinationTag: string,
                kept: seq<Descriptor>, longer: seq<Descriptor>, n: nat)
    requires i < |incoming| && n <= |kept| && kept <= longer
    requires forall k :: n <= k < |kept| ==>
               FromBlobs(blobs, kept[k]) || Incoming(incoming[..i], sourceTag, destinationTag, kept[k])
    requires forall k :: |kept| <= k < |longer| ==>
               FromBlobs(blobs, longer[k]) || (incoming[i].tag == sourceTag
                                               && longer[k] == incoming[i].(tag := destinationTag))
    ensures forall k :: n <= k < |longer| ==>
              FromBlobs(blobs, longer[k]) || Incoming(incoming[..i + 1], sourceTag, destinationTag, longer[k])
  {
    forall k | n <= k < |longer| && !FromBlobs(blobs, longer[k])
      ensures Incoming(incoming[..i + 1], sourceTag, destinationTag, longer[k])
    {
      if k < |kept| {
        IncomingGrows(incoming, i, sourceTag, destinationTag, longer[k]);
      } else {
        assert incoming[..i + 1][i] == incoming[i];
      }
    }
  }

  lemma NewTagged(blobs: Blobs, incoming: seq<Descriptor>, i: nat, sourceTag: string, destinationTag: string,
                  kept: seq<Descriptor>, longer: seq<Descriptor>, n: nat)
    requires i < |incoming| && n <= |kept| && incoming[i].tag == sourceTag
             && kept + [incoming[i].(tag := destinationTag)] <= longer
    requires forall k :: n <= k < |kept| ==>
               FromBlobs(blobs, kept[k]) || Incoming(incoming[..i], sourceTag, destinationTag, kept[k])
    requires forall k :: |kept| < k < |longer| ==> FromBlobs(blobs, longer[k])
    ensures forall k :: n <= k < |longer| ==>
              FromBlobs(blobs, longer[k]) || Incoming(incoming[..i + 1], sourceTag, destinationTag, longer[k])
    ensures kept <= longer
  {
    assert longer[|kept|] == incoming[i].(tag := destinationTag);
    NewOnes(blobs, incoming, i, sourceTag, destinationTag, kept, longer, n);
  }

  lemma {:induction false} RetaggedStep(incoming: seq<Descriptor>, i: nat, sourceTag: string, destinationTag: string,
                                        kept: seq<Descriptor>, longer: seq<Descriptor>)
    requires i < |incoming| && FirstTagged(kept, destinationTag) == Retagged(incoming[..i], sourceTag, destinationTag)
    requires incoming[i].tag == sourceTag && kept + [incoming[i].(tag := destinationTag)] <= longer
    ensures FirstTagged(longer, destinationTag) == Retagged(incoming[..i + 1], sourceTag, destinationTag)
  {
    var d := incoming[i].(tag := destinationTag);
    assert incoming[..i + 1] == incoming[..i] + [incoming[i]];
    if Tagged(kept, destinationTag) {
      FirstTaggedGrows(kept, longer, destinationTag);
      FirstTaggedGrows(incoming[..i], incoming[..i + 1], sourceTag);
    } else {
      FirstTaggedAppend(kept, d, destinationTag);
      FirstTaggedAppend(incoming[..i], incoming[i], sourceTag);
      assert (kept + [d])[|kept|].tag == destinationTag;
      FirstTaggedGrows(kept + [d], longer, destinationTag);
    }
  }

  lemma {:induction false} ClosureStep(blobs: Blobs, rank: Rank, incoming: seq<Descriptor>, i: nat, tag: string)
    requires i < |incoming| && Acyclic(blobs, rank)
    ensures Closure(blobs, rank, incoming[..i + 1], tag)
         == Closure(blobs, rank, incoming[..i], tag)
            + if incoming[i].tag == tag then {incoming[i].digest} + Below(blobs, rank, incoming[i]) else {}
  {
    assert incoming[..i + 1][..i] == incoming[..i];
  }

  // One incoming descriptor of the source tag joins the list.
  lemma {:induction false} MergesTagged(blobs: Blobs, rank: Rank, existing: seq<Descriptor>, incoming: seq<Descriptor>,
                                        i: nat, sourceTag: string, destinationTag: string, kept: seq<Descriptor>,
                                        longer: seq<Descriptor>)
    requires i < |incoming| && Merges(blobs, rank, existing, incoming[..i], sourceTag, destinationTag, kept)
    requires incoming[i].tag == sourceTag && kept + [incoming[i].(tag := destinationTag)] <= longer
    requires Digests(longer) == Digests(kept) + {incoming[i].digest} + Below(blobs, rank, incoming[i])
    requires forall k :: |kept| < k < |longer| ==> FromBlobs(blobs, longer[k])
    ensures Merges(blobs, rank, existing, incoming[..i + 1], sourceTag, destinationTag, longer)
  {
    RetaggedStep(incoming, i, sourceTag, destinationTag, kept, longer);
    ClosureStep(blobs, rank, incoming, i, sourceTag);
    NewTagged(blobs, incoming, i, sourceTag, destinationTag, kept, longer, |Others(existing, destinationTag)|);
  }

  lemma MergesOther(blobs: Blobs, rank: Rank, existing: seq<Descriptor>, incoming: seq<Descriptor>, i: nat,
                    sourceTag: string, destinationTag: string, kept: seq<Descriptor>)
    requires i < |incoming| && Merges(blobs, rank, existing, incoming[..i], sourceTag, destinationTag, kept)
    requires incoming[i].tag != sourceTag
    ensures Merges(blobs, rank, existing, incoming[..i + 1], sourceTag, destinationTag, kept)
  {
    ClosureStep(blobs, rank, incoming, i, sourceTag);
    NewOnes(blobs, incoming, i, sourceTag, destinationTag, kept, kept, |Others(existing, destinationTag)|);
    assert incoming[..i + 1] == incoming[..i] + [incoming[i]];
    if Tagged(incoming[..i], sourceTag) {
      FirstTaggedGrows(incoming[..i], incoming[..i + 1], sourceTag);
    } else {
      FirstTaggedAppend(incoming[..i], incoming[i], sourceTag);
    }
  }

  // The incoming descriptor under its new tag, and everything nested in it.
  method AppendTagged(blobs: Blobs, ghost rank: Rank, kept: seq<Descriptor>, d: Descriptor, seen: set<string>)
    returns (ok: bool, longer: seq<Descriptor>, marked: set<string>)
    requires Acyclic(blobs, rank) && seen == Digests(kept)
    ensures ok <==> Readable(blobs, rank, d)
    ensures ok ==>
              && Extends(blobs, kept + [d], longer)
              && marked == Digests(longer) == seen + {d.digest} + Below(blobs, rank, d)
  {
    DigestsAppend(kept, d);
    ok, longer, marked := AppendIndexChildren(blobs, rank, kept + [d], d, seen + {d.digest});
  }

  // Renaming a descriptor changes nothing it reaches.
  lemma {:induction false} TagIrrelevant(blobs: Blobs, rank: Rank, d: Descriptor, tag: string)
    requires Acyclic(blobs, rank)
    ensures Below(blobs, rank, d.(tag := tag)) == Below(blobs, rank, d)
    ensures Readable(blobs, rank, d.(tag := tag)) <==> Readable(blobs, rank, d)
  {
    assert Children(blobs, d.(tag := tag)) == Children(blobs, d);
  }

  // The scan of the incoming index so far.
  ghost predicate Scanned(blobs: Blobs, rank: Rank, incoming: seq<Descriptor>, n: nat, tag: string, added: bool)
    requires Acyclic(blobs, rank)
  {
    && n <= |incoming| && (added <==> exists k :: 0 <= k < n && incoming[k].tag == tag)
    && forall k :: 0 <= k < n && incoming[k].tag == tag ==> Readable(blobs, rank, incoming[k])
  }

  // One incoming descriptor: skipped, or appended under the destination tag.
  method MergeOne(blobs: Blobs, ghost rank: Rank, ghost existing: seq<Descriptor>, incoming: seq<Descriptor>, i: nat,
                  sourceTag: string, destinationTag: string, kept: seq<Descriptor>, seen: set<string>)
    returns (ok: bool, longer: seq<Descriptor>, marked: set<string>)
    requires i < |incoming| && Merges(blobs, rank, existing, incoming[..i], sourceTag, destinationTag, kept)
             && seen == Digests(kept)
    ensures ok <==> (incoming[i].tag == sourceTag ==> Readable(blobs, rank, incoming[i]))
    ensures ok ==>
              && Merges(blobs, rank, existing, incoming[..i + 1], sourceTag, destinationTag, longer)
              && marked == Digests(longer)
  {
    if incoming[i].tag != sourceTag {
      MergesOther(blobs, rank, existing, incoming, i, sourceTag, destinationTag, kept);
      return true, kept, seen;
    }
    TagIrrelevant(blobs, rank, incoming[i], destinationTag);
    ok, longer, marked := AppendTagged(blobs, rank, kept, incoming[i].(tag := destinationTag), seen);
    if ok {
      MergesTagged(blobs, rank, existing, incoming, i, sourceTag, destinationTag, kept, longer);
    }
  }

  lemma {:induction false} MergesStart(blobs: Blobs, rank: Rank, existing: seq<Descriptor>, incoming: seq<Descriptor>,
                                       sourceTag: string, destinationTag: string)
    requires Acyclic(blobs, rank) && !Tagged(Others(existing, destinationTag), destinationTag)
    ensures Merges(blobs, rank, existing, incoming[..0], sourceTag, destinationTag, Others(existing, destinationTag))
    ensures Scanned(blobs, rank, incoming, 0, sourceTag, false)
  {
  }

  lemma {:induction false} ScanNext(blobs: Blobs, rank: Rank, incoming: seq<Descriptor>, n: nat, tag: string,
                                    added: bool)
    requires Acyclic(blobs, rank) && n < |incoming| && Scanned(blobs, rank, incoming, n, tag, added)
    requires incoming[n].tag == tag ==> Readable(blobs, rank, incoming[n])
    ensures Scanned(blobs, rank, incoming, n + 1, tag, added || incoming[n].tag == tag)
  {
  }

  lemma ScanDone(blobs: Blobs, rank: Rank, incoming: seq<Descriptor>, tag: string, added: bool)
    requires Acyclic(blobs, rank) && Scanned(blobs, rank, incoming, |incoming|, tag, added)
    ensures (added <==> Tagged(incoming, tag)) && AllReadable(blobs, rank, incoming, tag)
  {
  }

  method MergeIndexes(blobs: Blobs, ghost rank: Rank, existing: seq<Descriptor>, incoming: seq<Descriptor>,
                      sourceTag: string, destinationTag: string)
    returns (r: Option<seq<Descriptor>>)
    requires Acyclic(blobs, rank)
    ensures r.Some? <==> Tagged(incoming, sourceTag) && AllReadable(blobs, rank, incoming, sourceTag)
    ensures r.Some? ==> Merges(blobs, rank, existing, incoming, sourceTag, destinationTag, r.value)
  {
    var kept, seen := KeepOthers(existing, destinationTag);
    var added := false;
    MergesStart(blobs, rank, existing, incoming, sourceTag, destinationTag);
    for i := 0 to |incoming|
      invariant Merges(blobs, rank, existing, incoming[..i], sourceTag, destinationTag, kept) && seen == Digests(kept)
      invariant Scanned(blobs, rank, incoming, i, sourceTag, added)
    {
      var ok, longer, marked := MergeOne(blobs, rank, existing, incoming, i, sourceTag, destinationTag, kept, seen);
      if !ok {
        return None;
      }
      ScanNext(blobs, rank, incoming, i, sourceTag, added);
      kept, seen, added := longer, marked, added || incoming[i].tag == sourceTag;
    }
    assert incoming[..|incoming|] == incoming;
    ScanDone(blobs, rank, incoming, sourceTag, added);
    r := if added then Some(kept) else None;
  }

  // ---- The check against the merge ----

  // A tag resolves to this digest and everything it nests is listed and readable.
  ghost predicate TagComplete(blobs: Blobs, rank: Rank, index: seq<Descriptor>, tag: string, digest: string)
    requires Acyclic(blobs, rank)
  {
    var d := FirstTagged(index, tag);
    d.Some? && d.value.digest == digest && Readable(blobs, rank, d.value)
      && Below(blobs, rank, d.value) <= Digests(index)
  }

  // `index` is None when the mirror has none yet.
  method Mirrored(blobs: Blobs, ghost rank: Rank, index: Option<seq<Descriptor>>, tag: string, digest: string)
    returns (r: Verdict)
    requires Acyclic(blobs, rank)
    ensures r == Complete <==> index.Some? && TagComplete(blobs, rank, index.value, tag, digest)
    ensures r == Undecodable ==>
              && index.Some? && FirstTagged(index.value, tag).Some?
              && !Readable(blobs, rank, FirstTagged(index.value, tag).value)
  {
    if index.None? {
      return Incomplete;
    }
    var manifests := index.value;
    var published: set<string> := {};
    for i := 0 to |manifests|
      invariant published == Digests(manifests[..i])
    {
      assert manifests[..i + 1] == manifests[..i] + [manifests[i]];
      DigestsAppend(manifests[..i], manifests[i]);
      published := published + {manifests[i].digest};
    }
    assert manifests[..|manifests|] == manifests;
    for i := 0 to |manifests|
      invariant !Tagged(manifests[..i], tag)
    {
      assert manifests[..i + 1] == manifests[..i] + [manifests[i]];
      FirstTaggedAppend(manifests[..i], manifests[i], tag);
      if manifests[i].tag == tag {
        FirstTaggedGrows(manifests[..i + 1], manifests, tag);
        if manifests[i].digest != digest {
          return Incomplete;
        }
        r := PublishedIndexComplete(blobs, rank, manifests[i], published);
        return;
      }
    }
    r := Incomplete;
  }

  // Every local blob is in the mirror.
  predicate Uploaded(local: Blobs, remote: Blobs) {
    forall key :: key in local ==> key in remote && remote[key] == local[key]
  }

  lemma {:induction false} ReachesSame(local: Blobs, remote: Blobs, rank: Rank, d: Descriptor)
    requires Acyclic(local, rank) && Acyclic(remote, rank) && Uploaded(local, remote) && Readable(local, rank, d)
    ensures Readable(remote, rank, d) && Below(remote, rank, d) == Below(local, rank, d)
    decreases Measure(rank, d)
  {
    assert Children(remote, d) == Children(local, d);
    ReachAllSame(local, remote, rank, Children(local, d), Measure(rank, d));
  }

  lemma {:induction false} ReachAllSame(local: Blobs, remote: Blobs, rank: Rank, ds: seq<Descriptor>, bound: nat)
    requires Acyclic(local, rank) && Acyclic(remote, rank) && Uploaded(local, remote) && Under(rank, ds, bound)
    requires ReadableAll(local, rank, ds, bound)
    ensures ReadableAll(remote, rank, ds, bound)
            && BelowAll(remote, rank, ds, bound) == BelowAll(local, rank, ds, bound)
    decreases bound, |ds|
  {
    if ds != [] {
      ReachAllSame(local, remote, rank, ds[..|ds| - 1], bound);
      ReachesSame(local, remote, rank, ds[|ds| - 1]);
    }
  }

  lemma {:induction false} ClosureHolds(blobs: Blobs, rank: Rank, incoming: seq<Descriptor>, tag: string, d: Descriptor)
    requires Acyclic(blobs, rank) && d in incoming && d.tag == tag
    ensures d.digest in Closure(blobs, rank, incoming, tag)
            && Below(blobs, rank, d) <= Closure(blobs, rank, incoming, tag)
  {
    if d != incoming[|incoming| - 1] {
      ClosureHolds(blobs, rank, incoming[..|incoming| - 1], tag, d);
    }
  }

  lemma {:induction false} FirstTaggedIn(ds: seq<Descriptor>, tag: string)
    requires Tagged(ds, tag)
    ensures FirstTagged(ds, tag).value in ds && FirstTagged(ds, tag).value.tag == tag
  {
    if ds[0].tag != tag {
      assert Tagged(ds[1..], tag);
      FirstTaggedIn(ds[1..], tag);
    }
  }

  /** Once blobs are uploaded, the check accepts a merged index for exactly the digest that was published. */
  lemma {:induction false} PublishedIsMirrored(local: Blobs, remote: Blobs, rank: Rank, existing: seq<Descriptor>,
                                               incoming: seq<Descriptor>, sourceTag: string, destinationTag: string,
                                               merged: seq<Descriptor>, digest: string)
    requires Acyclic(local, rank) && Acyclic(remote, rank) && Uploaded(local, remote)
    requires Tagged(incoming, sourceTag) && AllReadable(local, rank, incoming, sourceTag)
    requires Merges(local, rank, existing, incoming, sourceTag, destinationTag, merged)
    ensures TagComplete(remote, rank, merged, destinationTag, digest)
            <==> digest == FirstTagged(incoming, sourceTag).value.digest
  {
    FirstTaggedIn(incoming, sourceTag);
    var d := FirstTagged(incoming, sourceTag).value;
    ClosureHolds(local, rank, incoming, sourceTag, d);
    ReachesSame(local, remote, rank, d);
    TagIrrelevant(remote, rank, d, destinationTag);
  }

  // ---- Other tags ----

  lemma {:induction false} OthersFirst(ds: seq<Descriptor>, tag: string, other: string)
    requires other != tag && Tagged(ds, other)
    ensures Tagged(Others(ds, tag), other) && FirstTagged(Others(ds, tag), other) == FirstTagged(ds, other)
  {
    var front, last := ds[..|ds| - 1], ds[|ds| - 1];
    assert ds == front + [last];
    if Tagged(front, other) {
      OthersFirst(front, tag, other);
      FirstTaggedGrows(front, ds, other);
      FirstTaggedGrows(Others(front, tag), Others(ds, tag), other);
    } else {
      OthersUntagged(front, tag, other);
      FirstTaggedAppend(front, last, other);
      FirstTaggedAppend(Others(front, tag), last, other);
    }
  }

  lemma {:induction false} OthersUntagged(ds: seq<Descriptor>, tag: string, other: string)
    requires !Tagged(ds, other)
    ensures !Tagged(Others(ds, tag), other)
  {
    if ds != [] {
      assert forall k :: 0 <= k < |ds| - 1 ==> ds[..|ds| - 1][k] == ds[k];
      OthersUntagged(ds[..|ds| - 1], tag, other);
    }
  }

  // Digests that only the replaced tag listed and the new image does not bring back.
  ghost function Lost(local: Blobs, rank: Rank, existing: seq<Descriptor>, incoming: seq<Descriptor>, sourceTag: string,
                      destinationTag: string): set<string>
    requires Acyclic(local, rank)
  {
    Digests(existing) - Digests(Others(existing, destinationTag)) - Closure(local, rank, incoming, sourceTag)
  }

  /** Another tag that was complete stays complete exactly when it nests none of the lost digests. */
  lemma {:induction false} OtherTagSurvivesExactly(local: Blobs, remote: Blobs, rank: Rank, existing: seq<Descriptor>,
                                                   incoming: seq<Descriptor>, sourceTag: string, destinationTag: string,
                                                   merged: seq<Descriptor>, other: string, digest: string)
    requires Acyclic(local, rank) && Acyclic(remote, rank) && other != destinationTag
    requires Merges(local, rank, existing, incoming, sourceTag, destinationTag, merged)
    requires TagComplete(remote, rank, existing, other, digest)
    ensures TagComplete(remote, rank, merged, other, digest) <==>
              Below(remote, rank, FirstTagged(existing, other).value)
              !! Lost(local, rank, existing, incoming, sourceTag, destinationTag)
  {
    OthersFirst(existing, destinationTag, other);
    FirstTaggedGrows(Others(existing, destinationTag), merged, other);
    var below := Below(remote, rank, FirstTagged(existing, other).value);
    var lost := Lost(local, rank, existing, incoming, sourceTag, destinationTag);
    assert forall x :: x in below ==> (x in Digests(merged) <==> x !in lost) by {
      OthersListed(existing, destinationTag); }
  }

  lemma {:induction false} OthersListed(ds: seq<Descriptor>, tag: string)
    ensures Digests(Others(ds, tag)) <= Digests(ds)
  {
    if ds != [] {
      var front, last := ds[..|ds| - 1], ds[|ds| - 1];
      OthersListed(front, tag);
      DigestsAppend(front, last);
      DigestsAppend(Others(front, tag), last);
      assert ds == front + [last];
    }
  }

  // Tag "web" is a plain manifest "b", then "c"; tag "app" is an index "a" that nests "b".
  const MANIFEST := "application/vnd.oci.image.manifest.v1+json"
  const OLD := Descriptor("b", MANIFEST, "web", "")
  const APP := Descriptor("a", "application/vnd.oci.image.index.v1+json", "app", "")
  const NESTED := Descriptor("b", MANIFEST, "", "")
  const NEW := Descriptor("c", MANIFEST, "web", "")
  const STORED: Blobs := map["a" := Some([NESTED])]

  lemma AppReaches(rank: Rank)
    requires rank("a") == 0
    ensures Acyclic(STORED, rank) && Readable(STORED, rank, APP) && Below(STORED, rank, APP) == {"b"}
  {
    forall d, i | 0 <= i < |Children(STORED, d)|
      ensures Measure(rank, Children(STORED, d)[i]) < Measure(rank, d)
    {
      assert Children(STORED, d) == [NESTED];
    }
    assert Children(STORED, APP) == [NESTED] && Children(STORED, NESTED) == [] && [NESTED][..0] == [];
    assert Below(STORED, rank, NESTED) == {} && Readable(STORED, rank, NESTED);
    assert BelowAll(STORED, rank, [], 1) == {} && ReadableAll(STORED, rank, [], 1);
    assert BelowAll(STORED, rank, [NESTED], 1) == {"b"} && ReadableAll(STORED, rank, [NESTED], 1);
  }

  lemma {:induction false} ClosureOfOne(blobs: Blobs, rank: Rank, d: Descriptor, tag: string)
    requires Acyclic(blobs, rank) && d.tag == tag
    ensures Closure(blobs, rank, [d], tag) == {d.digest} + Below(blobs, rank, d)
    ensures Retagged([d], tag, tag) == Some(d) && Incoming([d], tag, tag, d)
  {
    assert [d][..0] == [] && Closure(blobs, rank, [], tag) == {};
    assert [d][0] == d && d.(tag := tag) == d;
  }

  // One descriptor published when everything nested in it is listed already: it alone is added.
  lemma {:induction false} SingleMerge(blobs: Blobs, rank: Rank, existing: seq<Descriptor>, d: Descriptor, tag: string,
                                       kept: seq<Descriptor>, merged: seq<Descriptor>)
    requires Acyclic(blobs, rank) && d.tag == tag && kept == Others(existing, tag) && merged == kept + [d]
    requires !Tagged(kept, tag) && Below(blobs, rank, d) <= Digests(kept) + {d.digest}
    ensures Merges(blobs, rank, existing, [d], tag, tag, merged)
  {
    ClosureOfOne(blobs, rank, d, tag);
    DigestsAppend(kept, d);
    FirstTaggedAppend(kept, d, tag);
  }

  lemma {:induction false} OthersShort(a: Descriptor, b: Descriptor, tag: string)
    ensures Others([a], tag) == if a.tag != tag then [a] else []
    ensures Others([a, b], tag) == (if a.tag != tag then [a] else []) + if b.tag != tag then [b] else []
  {
    assert [a][..0] == [] && [a, b][..1] == [a];
  }

  lemma TagsDiffer()
    ensures "app" != "web"
  {
    assert "app"[0] != "web"[0];
  }

  lemma FirstWeb(rank: Rank)
    ensures Merges(map[], rank, [], [OLD], "web", "web", [OLD])
  {
    SingleMerge(map[], rank, [], OLD, "web", [], [OLD]);
  }

  lemma ThenApp(rank: Rank)
    requires rank("a") == 0
    ensures Acyclic(STORED, rank) && Merges(STORED, rank, [OLD], [APP], "app", "app", [OLD, APP])
  {
    AppReaches(rank);
    TagsDiffer();
    OthersShort(OLD, APP, "app");
    assert OLD in [OLD];
    SingleMerge(STORED, rank, [OLD], APP, "app", [OLD], [OLD, APP]);
  }

  lemma ThenWebAgain(rank: Rank)
    ensures Merges(map[], rank, [OLD, APP], [NEW], "web", "web", [APP, NEW])
  {
    TagsDiffer();
    OthersShort(OLD, APP, "web");
    SingleMerge(map[], rank, [OLD, APP], NEW, "web", [APP], [APP, NEW]);
  }

  // A readable image is complete exactly when what it nests is listed.
  lemma {:induction false} CompleteWhenListed(blobs: Blobs, rank: Rank, ds: seq<Descriptor>, d: Descriptor)
    requires Acyclic(blobs, rank) && Readable(blobs, rank, d) && FirstTagged(ds, d.tag) == Some(d)
    ensures TagComplete(blobs, rank, ds, d.tag, d.digest) <==> Below(blobs, rank, d) <= Digests(ds)
  {
  }

  lemma {:induction false} FirstOfTwo(a: Descriptor, b: Descriptor, tag: string)
    ensures a.tag == tag ==> FirstTagged([a, b], tag) == Some(a)
    ensures a.tag != tag == b.tag ==> FirstTagged([a, b], tag) == Some(b)
    ensures Digests([a, b]) == {a.digest, b.digest}
  {
    assert [a, b][1..] == [b];
  }

  lemma AppBreaks(rank: Rank)
    requires Acyclic(STORED, rank) && Readable(STORED, rank, APP) && Below(STORED, rank, APP) == {"b"}
    ensures TagComplete(STORED, rank, [OLD, APP], "app", "a") && !TagComplete(STORED, rank, [APP, NEW], "app", "a")
  {
    TagsDiffer();
    FirstOfTwo(OLD, APP, "app");
    FirstOfTwo(APP, NEW, "app");
    CompleteWhenListed(STORED, rank, [OLD, APP], APP);
    CompleteWhenListed(STORED, rank, [APP, NEW], APP);
    assert "b" !in {"a", "c"};
  }

  /** Three publications from an empty mirror, "web", "app" and a new "web", leave the untouched "app" incomplete. */
  lemma OtherTagCanBreak(rank: Rank)
    requires rank("a") == 0
    ensures Merges(map[], rank, [], [OLD], "web", "web", [OLD])
    ensures Acyclic(STORED, rank) && Merges(STORED, rank, [OLD], [APP], "app", "app", [OLD, APP])
    ensures TagComplete(STORED, rank, [OLD, APP], "app", "a")
    ensures Merges(map[], rank, [OLD, APP], [NEW], "web", "web", [APP, NEW])
    ensures !TagComplete(STORED, rank, [APP, NEW], "app", "a")
  {
    FirstWeb(rank);
    ThenApp(rank);
    ThenWebAgain(rank);
    AppReaches(rank);
    AppBreaks(rank);
  }
}
