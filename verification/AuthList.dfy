/** The local authorization list: versions, full and differential updates, and
    the list as a replay of the updates since the last full one. */
module AuthList {
  import opened Station

  /** What the central system says about a tag; its contents are opaque here. */
  datatype TagInfo = TagInfo(status: string, expiry: Option<int>, parentIdTag: string)

  /** Without information the entry deletes the tag. */
  datatype Entry = Entry(idTag: string, info: Option<TagInfo>)

  datatype UpdateType = Full | Differential

  datatype Update = Update(version: int, kind: UpdateType, entries: seq<Entry>)

  datatype UpdateAnswer = UpdateAccepted | UpdateFailed | VersionMismatch

  type List = map<string, TagInfo>

  datatype Store = Store(list: List, version: int)

  // ---------------------------------------------------------------------
  // One update
  // ---------------------------------------------------------------------

  ghost predicate Distinct(entries: seq<Entry>) {
    forall i, j :: 0 <= i < j < |entries| ==> entries[i].idTag != entries[j].idTag
  }

  function Put(list: List, entry: Entry): List {
    match entry.info
    case None => list - {entry.idTag}
    case Some(info) => list[entry.idTag := info]
  }

  /** The entries in order. */
  function Entered(list: List, entries: seq<Entry>): List {
    if entries == [] then list
    else Put(Entered(list, entries[..|entries| - 1]), entries[|entries| - 1])
  }

  function Base(list: List, kind: UpdateType): List {
    if kind == Full then map[] else list
  }

  ghost function AnswerTo(store: Store, update: Update): UpdateAnswer {
    if update.version <= store.version then VersionMismatch
    else if Distinct(update.entries) then UpdateAccepted
    else UpdateFailed
  }

  ghost function Updated(store: Store, update: Update): Store {
    if AnswerTo(store, update) == UpdateAccepted
    then Store(Entered(Base(store.list, update.kind), update.entries), update.version)
    else store
  }

  class AuthorizationList {
    var list: map<string, TagInfo>
    var version: int

    function Contents(): Store
      reads this
    {
      Store(list, version)
    }

    constructor ()
      ensures Contents() == Store(map[], 0)
    {
      list, version := map[], 0;
    }

    method OnSendLocalList(update: Update) returns (answer: UpdateAnswer)
      modifies this
      ensures answer == AnswerTo(old(Contents()), update)
      ensures answer == VersionMismatch <==> update.version <= old(version)
      ensures answer == UpdateAccepted <==>
        && update.version > old(version)
        && forall i, j :: 0 <= i < j < |update.entries| ==> update.entries[i].idTag != update.entries[j].idTag
      ensures Contents() == Updated(old(Contents()), update)
      ensures version == if answer == UpdateAccepted then update.version else old(version)
      ensures answer != UpdateAccepted ==> list == old(list)
    {
      if update.version <= version {
        return VersionMismatch;
      }
      var distinct := CheckDistinct(update.entries);
      if !distinct {
        return UpdateFailed;
      }
      if update.kind == Full {
        list := map[];
      }
      ghost var base := list;
      for i := 0 to |update.entries|
        invariant version == old(version)
        invariant list == Entered(base, update.entries[..i])
      {
        var entry := update.entries[i];
        assert update.entries[..i + 1][..i] == update.entries[..i];
        match entry.info
        case None => list := list - {entry.idTag};
        case Some(info) => list := list[entry.idTag := info];
      }
      assert update.entries[..|update.entries|] == update.entries;
      version := update.version;
      return UpdateAccepted;
    }
  }

  method CheckDistinct(entries: seq<Entry>) returns (distinct: bool)
    ensures distinct <==> Distinct(entries)
  {
    var seen: set<string> := {};
    for i := 0 to |entries|
      invariant forall k :: 0 <= k < i ==> entries[k].idTag in seen
      invariant forall tag :: tag in seen ==> exists k :: 0 <= k < i && entries[k].idTag == tag
      invariant Distinct(entries[..i])
    {
      if entries[i].idTag in seen {
        return false;
      }
      seen := seen + {entries[i].idTag};
    }
    assert entries[..|entries|] == entries;
    return true;
  }

  // ---------------------------------------------------------------------
  // What an update does, tag by tag
  // ---------------------------------------------------------------------

  function Find(list: List, tag: string): Option<TagInfo> {
    if tag in list then Some(list[tag]) else None
  }

  /** The entry for a tag decides; without one the tag is as before. */
  lemma {:induction false} EnteredTag(list: List, entries: seq<Entry>, tag: string)
    requires Distinct(entries)
    ensures (forall k :: 0 <= k < |entries| ==> entries[k].idTag != tag) ==>
      Find(Entered(list, entries), tag) == Find(list, tag)
    ensures forall k :: 0 <= k < |entries| && entries[k].idTag == tag ==>
      Find(Entered(list, entries), tag) == entries[k].info
  {
    if entries != [] {
      var front, last := entries[..|entries| - 1], entries[|entries| - 1];
      EnteredTag(list, front, tag);
      assert forall k :: 0 <= k < |front| ==> front[k] == entries[k];
    }
  }

  lemma EntryDecides(list: List, entries: seq<Entry>, k: nat)
    requires Distinct(entries) && k < |entries|
    ensures Find(Entered(list, entries), entries[k].idTag) == entries[k].info
  {
    EnteredTag(list, entries, entries[k].idTag);
  }

  lemma SameFinds(a: List, b: List)
    requires forall tag :: Find(a, tag) == Find(b, tag)
    ensures a == b
  {
    forall tag
      ensures tag in a <==> tag in b
      ensures tag in a ==> a[tag] == b[tag]
    {
      assert Find(a, tag) == Find(b, tag);
    }
  }

  /** The order of the entries of an update does not matter. */
  lemma OrderDoesNotMatter(list: List, p: seq<Entry>, q: seq<Entry>)
    requires Distinct(p) && Distinct(q) && forall e :: e in p <==> e in q
    ensures Entered(list, p) == Entered(list, q)
  {
    forall tag
      ensures Find(Entered(list, p), tag) == Find(Entered(list, q), tag)
    {
      EnteredTag(list, p, tag);
      EnteredTag(list, q, tag);
      if i :| 0 <= i < |p| && p[i].idTag == tag {
        var e := p[i];
        assert e in p;
        var j :| 0 <= j < |q| && q[j] == e;
      } else {
        forall j | 0 <= j < |q|
          ensures q[j].idTag != tag
        {
          var e := q[j];
          assert e in q;
          var i :| 0 <= i < |p| && p[i] == e;
        }
      }
    }
    SameFinds(Entered(list, p), Entered(list, q));
  }

  // ---------------------------------------------------------------------
  // Two differential updates are one
  // ---------------------------------------------------------------------

  predicate Mentions(entries: seq<Entry>, tag: string) {
    exists k :: 0 <= k < |entries| && entries[k].idTag == tag
  }

  /** The entries of `p` for tags `q` does not mention. */
  function Without(p: seq<Entry>, q: seq<Entry>): seq<Entry> {
    if p == [] then []
    else
      var kept := Without(p[..|p| - 1], q);
      if Mentions(q, p[|p| - 1].idTag) then kept else kept + [p[|p| - 1]]
  }

  /** One update with the effect of `p` then `q`: the later entry wins. */
  function Merged(p: seq<Entry>, q: seq<Entry>): seq<Entry> {
    Without(p, q) + q
  }

  lemma {:induction false} WithoutKeeps(p: seq<Entry>, q: seq<Entry>)
    requires Distinct(p)
    ensures Distinct(Without(p, q))
    ensures forall e :: e in Without(p, q) <==> e in p && !Mentions(q, e.idTag)
  {
    if p != [] {
      var front, last := p[..|p| - 1], p[|p| - 1];
      assert p == front + [last];
      WithoutKeeps(front, q);
      forall e | e in front
        ensures e.idTag != last.idTag
      {
        var k :| 0 <= k < |front| && front[k] == e;
        assert p[k] == e;
      }
    }
  }

  lemma MergedIsDistinct(p: seq<Entry>, q: seq<Entry>)
    requires Distinct(p) && Distinct(q)
    ensures Distinct(Merged(p, q))
  {
    WithoutKeeps(p, q);
    var kept, both := Without(p, q), Merged(p, q);
    forall i, j | 0 <= i < j < |both|
      ensures both[i].idTag != both[j].idTag
    {
      if i < |kept| && j >= |kept| {
        var e := kept[i];
        assert e in kept;
        assert q[j - |kept|] == both[j];
      }
    }
  }

  /** Two consecutive differential updates have the effect of the merged one. */
  lemma DifferentialsMerge(list: List, p: seq<Entry>, q: seq<Entry>)
    requires Distinct(p) && Distinct(q)
    ensures Distinct(Merged(p, q))
    ensures Entered(Entered(list, p), q) == Entered(list, Merged(p, q))
  {
    MergedIsDistinct(p, q);
    WithoutKeeps(p, q);
    forall tag
      ensures Find(Entered(Entered(list, p), q), tag) == Find(Entered(list, Merged(p, q)), tag)
    {
      MergedTag(list, p, q, tag);
    }
    SameFinds(Entered(Entered(list, p), q), Entered(list, Merged(p, q)));
  }

  lemma MergedTag(list: List, p: seq<Entry>, q: seq<Entry>, tag: string)
    requires Distinct(p) && Distinct(q) && Distinct(Merged(p, q))
    ensures Find(Entered(Entered(list, p), q), tag) == Find(Entered(list, Merged(p, q)), tag)
  {
    if k :| 0 <= k < |q| && q[k].idTag == tag {
      EntryDecides(Entered(list, p), q, k);
      assert Merged(p, q)[|Without(p, q)| + k] == q[k];
      EntryDecides(list, Merged(p, q), |Without(p, q)| + k);
    } else if k :| 0 <= k < |p| && p[k].idTag == tag {
      EntryDecides(list, p, k);
      EnteredTag(Entered(list, p), q, tag);
      var j := KeptEntry(p, q, k);
      EntryDecides(list, Merged(p, q), j);
    } else {
      NeitherMentions(p, q, tag);
      EnteredTag(list, p, tag);
      EnteredTag(Entered(list, p), q, tag);
      EnteredTag(list, Merged(p, q), tag);
    }
  }

  lemma KeptEntry(p: seq<Entry>, q: seq<Entry>, k: nat) returns (j: nat)
    requires Distinct(p) && k < |p| && !Mentions(q, p[k].idTag)
    ensures j < |Merged(p, q)| && Merged(p, q)[j] == p[k]
  {
    WithoutKeeps(p, q);
    var e := p[k];
    assert e in p;
    assert e in Without(p, q);
    j :| 0 <= j < |Without(p, q)| && Without(p, q)[j] == e;
  }

  lemma NeitherMentions(p: seq<Entry>, q: seq<Entry>, tag: string)
    requires Distinct(p) && !Mentions(p, tag) && !Mentions(q, tag)
    ensures !Mentions(Merged(p, q), tag)
  {
    WithoutKeeps(p, q);
    var kept, both := Without(p, q), Merged(p, q);
    forall j | 0 <= j < |both|
      ensures both[j].idTag != tag
    {
      if j < |kept| {
        var e := kept[j];
        assert e in kept;
        var k :| 0 <= k < |p| && p[k] == e;
      } else {
        assert both[j] == q[j - |kept|];
      }
    }
  }

  /** The same for the whole store: two accepted differential updates could
      have been sent as one, with the second's version. */
  lemma DifferentialUpdatesMerge(store: Store, first: Update, second: Update)
    requires first.kind == Differential && second.kind == Differential
    requires AnswerTo(store, first) == UpdateAccepted && AnswerTo(Updated(store, first), second) == UpdateAccepted
    ensures var merged := Update(second.version, Differential, Merged(first.entries, second.entries));
      && AnswerTo(store, merged) == UpdateAccepted
      && Updated(store, merged) == Updated(Updated(store, first), second)
  {
    DifferentialsMerge(store.list, first.entries, second.entries);
  }

  // ---------------------------------------------------------------------
  // Runs of updates
  // ---------------------------------------------------------------------

  ghost function After(updates: seq<Update>): Store {
    if updates == [] then Store(map[], 0)
    else Updated(After(updates[..|updates| - 1]), updates[|updates| - 1])
  }

  /** The updates that were accepted. */
  ghost function Accepted(updates: seq<Update>): seq<Update> {
    if updates == [] then []
    else
      var front, last := updates[..|updates| - 1], updates[|updates| - 1];
      if AnswerTo(After(front), last) == UpdateAccepted then Accepted(front) + [last] else Accepted(front)
  }

  /** From the last full update on, or all of them. */
  function SinceFull(updates: seq<Update>): seq<Update> {
    if updates == [] then []
    else
      var last := updates[|updates| - 1];
      if last.kind == Full then [last] else SinceFull(updates[..|updates| - 1]) + [last]
  }

  /** The entries of the updates, one after another, on an empty list. */
  function Replay(updates: seq<Update>): List {
    if updates == [] then map[]
    else Entered(Replay(updates[..|updates| - 1]), updates[|updates| - 1].entries)
  }

  /** The list is what replaying the accepted updates since the last full one
      gives, as if each of them were differential. */
  lemma {:induction false} ListIsReplay(updates: seq<Update>)
    ensures After(updates).list == Replay(SinceFull(Accepted(updates)))
  {
    if updates != [] {
      var front, last := updates[..|updates| - 1], updates[|updates| - 1];
      ListIsReplay(front);
      if AnswerTo(After(front), last) == UpdateAccepted {
        var accepted := Accepted(updates);
        assert accepted[..|accepted| - 1] == Accepted(front);
        if last.kind == Full {
          assert SinceFull(accepted) == [last];
          assert [last][..0] == [];
          assert Replay([last]) == Entered(Replay([]), last.entries);
        } else {
          var since := SinceFull(accepted);
          assert since[..|since| - 1] == SinceFull(Accepted(front));
        }
      }
    }
  }

  /** The version is that of the last accepted update, and strictly above those
      of all accepted before it; a refused update changes nothing. */
  lemma {:induction false} VersionsIncrease(updates: seq<Update>)
    ensures After(updates).version == if Accepted(updates) == [] then 0 else Accepted(updates)[|Accepted(updates)| - 1].version
    ensures forall i, j :: 0 <= i < j < |Accepted(updates)| ==> Accepted(updates)[i].version < Accepted(updates)[j].version
    ensures forall i :: 0 <= i < |Accepted(updates)| ==> 0 < Accepted(updates)[i].version <= After(updates).version
    ensures updates != [] && AnswerTo(After(updates[..|updates| - 1]), updates[|updates| - 1]) != UpdateAccepted ==>
      After(updates) == After(updates[..|updates| - 1])
  {
    if updates != [] {
      VersionsIncrease(updates[..|updates| - 1]);
    }
  }

  /** The answer to an update, after any requests: a mismatch if its version is
      not above 0 and that of every update accepted before; otherwise accepted
      if no two entries share a tag, and failed if two do. */
  lemma AnswersExactly(updates: seq<Update>, update: Update)
    ensures var answer := AnswerTo(After(updates), update);
      var newer := update.version > 0
        && forall k :: 0 <= k < |Accepted(updates)| ==> update.version > Accepted(updates)[k].version;
      var distinct := forall i, j :: 0 <= i < j < |update.entries| ==>
        update.entries[i].idTag != update.entries[j].idTag;
      && (answer == VersionMismatch <==> !newer)
      && (answer == UpdateAccepted <==> newer && distinct)
      && (answer == UpdateFailed <==> newer && !distinct)
  {
    VersionsIncrease(updates);
    if Accepted(updates) != [] {
      var last := |Accepted(updates)| - 1;
      assert Accepted(updates)[last].version == After(updates).version;
    }
  }

  /** A new station accepts every update with a positive version and different
      tags, and what it then holds is what the entries say. */
  lemma FirstUpdate(update: Update, tag: string)
    requires update.version > 0
    requires forall i, j :: 0 <= i < j < |update.entries| ==> update.entries[i].idTag != update.entries[j].idTag
    ensures After([update]).version == update.version && Accepted([update]) == [update]
    ensures tag in After([update]).list <==>
      exists k :: 0 <= k < |update.entries| && update.entries[k].idTag == tag && update.entries[k].info.Some?
  {
    assert [update][..0] == [];
    EnteredTag(map[], update.entries, tag);
    if k :| 0 <= k < |update.entries| && update.entries[k].idTag == tag {
      assert Find(Entered(map[], update.entries), tag) == update.entries[k].info;
    }
  }
}
