/**
  A catalog set as linked version chains: every entry points to the older version of its name and back to the newer
  one, and the set maps a name to its newest entry.
 */
module CatalogSet {
  import opened Collections
  import opened Versions
  import Maps = HashMap

  datatype EntryType = Invalid | Table | Schema | Index

  /** An entry of a set; a schema entry has a set of tables of its own. */
  class Entry {
    const kind: EntryType
    const name: string
    const tables: CatalogSet?
    var deleted: bool
    var parent: Entry?
    var child: Entry?
    /** The name whose chain this entry is in, and its place there counted from the dummy. */
    ghost var owner: string
    ghost var depth: nat

    constructor (kind: EntryType, name: string, tables: CatalogSet? := null)
      ensures this.kind == kind && this.name == name && this.tables == tables
      ensures !deleted && parent == null && child == null
    {
      this.kind, this.name, this.tables := kind, name, tables;
      deleted, parent, child := false, null, null;
    }
  }

  ghost function Older(c: seq<Entry>, i: nat): Entry?
  {
    if 0 < i <= |c| then c[i - 1] else null
  }

  ghost function Newer(c: seq<Entry>, i: nat): Entry?
  {
    if i + 1 < |c| then c[i + 1] else null
  }

  /** `c`, oldest first, is linked from newer to older, starting from a dummy; every tombstone is invalid. */
  ghost predicate Spine(name: string, c: seq<Entry>)
    reads c`owner, c`depth, c`child, c`deleted
  {
    && |c| >= 1
    && (forall i :: 0 <= i < |c| ==> c[i].owner == name && c[i].depth == i && c[i].child == Older(c, i))
    && c[0].kind == Invalid
    && (forall i :: 0 < i < |c| && c[i].deleted ==> c[i].kind == Invalid)
  }

  /** The oldest `n` entries point back to the next newer one. */
  ghost predicate BackLinked(c: seq<Entry>, n: nat)
    reads c`parent
  {
    forall i :: 0 <= i < n && i < |c| ==> c[i].parent == Newer(c, i)
  }

  /** `c`, oldest first, is the version chain of `name`, linked both ways. */
  ghost predicate ChainOk(name: string, c: seq<Entry>)
    reads c
  {
    |c| >= 2 && Spine(name, c) && BackLinked(c, |c|)
  }

  /** What an entry other than the dummy stands for. */
  ghost function VersionOfEntry(e: Entry): Version<Entry>
    reads e`deleted
  {
    if e.deleted then Dropped else Created(e)
  }

  ghost function VersionsOf(c: seq<Entry>): (vs: seq<Version<Entry>>)
    reads c`deleted
    ensures |vs| == |c|
    decreases |c|
  {
    if c == [] then []
    else VersionsOf(c[..|c| - 1]) + [if |c| == 1 then Dummy else VersionOfEntry(c[|c| - 1])]
  }

  ghost function EntriesOf(chains: map<string, seq<Entry>>): set<Entry>
  {
    set name, e | name in chains && e in chains[name] :: e
  }

  lemma ChainEntries(chains: map<string, seq<Entry>>, name: string)
    requires name in chains
    ensures forall e :: e in chains[name] ==> e in EntriesOf(chains)
  {
  }

  ghost predicate AllChainsOk(chains: map<string, seq<Entry>>)
    reads EntriesOf(chains)
  {
    forall name :: name in chains ==> (ChainEntries(chains, name); ChainOk(name, chains[name]))
  }

  /** The map holds the newest entry of every chain. */
  ghost predicate HeadsOk(data: map<string, Entry>, chains: map<string, seq<Entry>>)
  {
    && data.Keys == chains.Keys
    && (forall name :: name in chains ==> |chains[name]| >= 2 && data[name] == chains[name][|chains[name]| - 1])
  }

  ghost function ContentsOf(chains: map<string, seq<Entry>>): Chains<Entry>
    reads EntriesOf(chains)`deleted
  {
    map name | name in chains :: (ChainEntries(chains, name); VersionsOf(chains[name]))
  }

  lemma {:induction false} ContentsPush(chains: map<string, seq<Entry>>, name: string, c: seq<Entry>, value: Entry)
    requires |c| >= 1
    ensures ContentsOf(chains[name := c + [value]])
         == ContentsOf(chains)[name := VersionsOf(c) + [VersionOfEntry(value)]]
  {
    assert (c + [value])[..|c|] == c;
  }

  /** The entries after `value` is put on the chain `c` of `name`. */
  lemma EntriesPush(chains: map<string, seq<Entry>>, name: string, c: seq<Entry>, value: Entry)
    requires name in chains ==> c == chains[name]
    ensures EntriesOf(chains[name := c + [value]]) == EntriesOf(chains) + Elems(c) + {value}
  {
    var chains' := chains[name := c + [value]];
    forall e | e in EntriesOf(chains)
      ensures e in EntriesOf(chains')
    {
      var n :| n in chains && e in chains[n];
      assert n in chains' && e in chains'[n];
    }
    ChainEntries(chains', name);
    assert (c + [value])[|c|] == value;
  }

  lemma HeadsPush(data: map<string, Entry>, chains: map<string, seq<Entry>>, name: string, c: seq<Entry>, value: Entry)
    requires HeadsOk(data, chains) && |c| >= 1
    ensures HeadsOk(data[name := value], chains[name := c + [value]])
  {
  }

  lemma HeadVersion(data: map<string, Entry>, chains: map<string, seq<Entry>>, name: string)
    requires HeadsOk(data, chains)
    ensures (name in ContentsOf(chains) <==> name in data) && (name in chains <==> name in data)
    ensures name in data ==>
              && |ContentsOf(chains)[name]| >= 2
              && ContentsOf(chains)[name][|ContentsOf(chains)[name]| - 1] == VersionOfEntry(data[name])
              && ContentsOf(chains)[name] == VersionsOf(chains[name])
  {
  }

  class CatalogSet {
    var data: map<string, Entry>
    ghost var chains: map<string, seq<Entry>>

    ghost predicate Valid()
      reads this, EntriesOf(chains)
    {
      AllChainsOk(chains) && HeadsOk(data, chains)
    }

    /** The value this set stands for. */
    ghost function Contents(): Chains<Entry>
      reads this, EntriesOf(chains)`deleted
    {
      ContentsOf(chains)
    }

    constructor ()
      ensures Valid() && Contents() == map[] && chains == map[] && data == map[]
    {
      data := map[];
      chains := map[];
    }

    method Get(name: string) returns (e: Entry?)
      requires Valid()
      ensures Valid() && Contents() == old(Contents())
      ensures e == match Lookup(Contents(), name) case None => null case Some(x) => x
    {
      hide ContentsOf, AllChainsOk, HeadsOk;
      HeadVersion(data, chains, name);
      if name !in data {
        e := null;
      } else if data[name].deleted {
        e := null;
      } else {
        e := data[name];
      }
    }

    /** Puts `value` in front of the chain `c` of `name`. */
    method Push(name: string, value: Entry, ghost c: seq<Entry>, head: Entry)
      requires Valid() && value !in EntriesOf(chains)
      requires name in chains ==> c == chains[name]
      requires name !in chains ==> |c| == 1 && c[0] !in EntriesOf(chains)
      requires Extendable(name, c, value) && |c| >= 1 && head == c[|c| - 1]
      modifies this, value, head`parent
      ensures Valid() && chains == old(chains)[name := c + [value]]
      ensures EntriesOf(chains) == old(EntriesOf(chains)) + Elems(c) + {value}
      ensures Contents() == old(Contents())[name := old(VersionsOf(c)) + [old(VersionOfEntry(value))]]
    {
      hide AllChainsOk, Extendable, ContentsOf, VersionsOf, HeadsOk;
      EntriesPush(chains, name, c, value);
      ExtendableFacts(name, c, value);
      ghost var before := chains;
      HeadsPush(data, chains, name, c, value);
      data := data[name := value];
      chains := chains[name := c + [value]];
      LinkIn(name, value, c, head, before);
      assert ContentsOf(before) == old(ContentsOf(before));
      assert VersionsOf(c) == old(VersionsOf(c));
      ContentsPush(before, name, c, value);
    }

    /**
      `catalogSet_create_entry`. A name never seen first gets a dummy, for which `mallocOk` says whether memory was
      found; a name whose newest version is not a tombstone is refused.
     */
    method CreateEntry(name: string, value: Entry, mallocOk: bool) returns (ok: bool)
      requires Valid() && value !in EntriesOf(chains)
      requires value.parent == null && !value.deleted
      modifies this, value, EntriesOf(chains)`parent
      ensures Valid()
      ensures ok <==> !Visible(old(Contents()), name) && (name in old(Contents()) || mallocOk)
      ensures ok == Reports(old(Contents()), CreateOp(name, value, mallocOk))
      ensures Contents() == if ok then Create(old(Contents()), name, value) else old(Contents())
      ensures Contents() == Apply(old(Contents()), CreateOp(name, value, mallocOk))
      ensures old(EntriesOf(chains)) <= EntriesOf(chains) && (ok <==> value in EntriesOf(chains))
      ensures forall e :: e in EntriesOf(chains) ==>
                e in old(EntriesOf(chains)) || e == value || (fresh(e) && e.kind == Invalid)
    {
      hide ContentsOf, AllChainsOk, HeadsOk, EntriesOf;
      HeadVersion(data, chains, name);
      if name !in data {
        ok := mallocOk;
        if mallocOk {
          CreateFirst(name, value);
        }
      } else {
        ok := data[name].deleted;
        if data[name].deleted {
          PushReady(data, chains, name, value);
          KnownEntries(chains, name);
          Push(name, value, chains[name], data[name]);
        }
      }
    }

    /** The first create of a name: a dummy below the new entry. */
    method CreateFirst(name: string, value: Entry)
      requires Valid() && name !in data && value !in EntriesOf(chains)
      requires value.parent == null && !value.deleted
      modifies this, value
      ensures Valid() && Contents() == old(Contents())[name := [Dummy] + [Created(value)]]
      ensures exists dummy: Entry ::
                fresh(dummy) && dummy.kind == Invalid && EntriesOf(chains) == old(EntriesOf(chains)) + {dummy, value}
    {
      hide ContentsOf, AllChainsOk, HeadsOk;
      HeadVersion(data, chains, name);
      var dummy := NewDummy(name);
      PushReadyNew(name, dummy, value);
      Push(name, value, [dummy], dummy);
      assert Elems([dummy]) + {value} == {dummy, value};
    }

    /** `catalogSet_drop_entry`: true for any known name, even when there was no memory for the tombstone. */
    method DropEntry(name: string, mallocOk: bool) returns (ok: bool)
      requires Valid()
      modifies this, EntriesOf(chains)`parent
      ensures Valid()
      ensures ok <==> name in old(Contents())
      ensures ok == Reports(old(Contents()), DropOp(name, mallocOk))
      ensures Contents() == if mallocOk then Drop(old(Contents()), name) else old(Contents())
      ensures Contents() == Apply(old(Contents()), DropOp(name, mallocOk))
      ensures old(EntriesOf(chains)) <= EntriesOf(chains)
      ensures forall e :: e in EntriesOf(chains) ==> e in old(EntriesOf(chains)) || (fresh(e) && e.kind == Invalid)
    {
      hide ContentsOf, AllChainsOk, HeadsOk, EntriesOf;
      HeadVersion(data, chains, name);
      ok := name in data;
      if name in data && mallocOk {
        PutTombstone(name);
      }
    }

    /**
      `catalogSet_get_entry_count`: a scan of `hmap`, the hash map that holds the newest entries, counting those that
      are not deleted.
     */
    method CountEntries(hmap: Maps.Map<string, Entry>) returns (n: nat)
      requires Valid() && hmap.Valid() && hmap.Contents() == data
      ensures n == |VisibleNames(Contents())|
    {
      hide AllChainsOk, Maps.Map.Valid, VisibleNames, ContentsOf, HeadsOk;
      ScanIsComplete(hmap);
      var visited := Maps.VisitAll(hmap);
      n := 0;
      for i := 0 to |visited|
        invariant n == |LiveNames(visited[..i])|
      {
        LiveNamesStep(hmap, visited, i);
        var entry: Entry := visited[i].value;
        if !entry.deleted {
          n := n + 1;
        }
      }
      assert visited[..|visited|] == visited;
      LiveNamesAll(hmap, visited, data, chains);
    }

    /**
      `catalogSet_deinit`: walks every chain from its newest entry and reclaims it. The result lists the entries
      reclaimed, in order.
     */
    method Deinit() returns (freed: seq<Entry>)
      requires Valid()
      modifies this, EntriesOf(chains)`child, EntriesOf(chains)`parent
      ensures NoDup(freed)
      ensures forall e :: e in freed <==> e in old(EntriesOf(chains))
      ensures data == map[]
    {
      freed := FreeAll(data, chains);
      data := map[];
      chains := map[];
    }

    method PutTombstone(name: string)
      requires Valid() && name in data
      modifies this, EntriesOf(chains)`parent
      ensures Valid() && name in old(Contents())
      ensures Contents() == old(Contents())[name := old(Contents())[name] + [Dropped]]
      ensures exists stone: Entry ::
                fresh(stone) && stone.kind == Invalid && EntriesOf(chains) == old(EntriesOf(chains)) + {stone}
    {
      hide ContentsOf, AllChainsOk, HeadsOk, VersionsOf, Extendable;
      HeadVersion(data, chains, name);
      KnownEntries(chains, name);
      var stone := NewTombstone(data[name].name);
      PushReady(data, chains, name, stone);
      Push(name, stone, chains[name], data[name]);
    }
  }

  lemma KnownEntries(chains: map<string, seq<Entry>>, name: string)
    requires name in chains
    ensures EntriesOf(chains) + Elems(chains[name]) == EntriesOf(chains)
  {
    ChainEntries(chains, name);
  }

  /** A scan of the hash map visits the node of every name once. */
  ghost predicate Complete(hmap: Maps.Map<string, Entry>, visited: seq<Maps.Node<string, Entry>>)
    reads hmap
  {
    && NoDup(visited)
    && (forall n :: n in visited ==> n.key in hmap.nodes && hmap.nodes[n.key] == n)
    && (forall k :: k in hmap.nodes ==> hmap.nodes[k].key == k && hmap.nodes[k] in visited)
  }

  lemma ScanIsComplete(hmap: Maps.Map<string, Entry>)
    requires hmap.Valid()
    ensures Complete(hmap, Maps.Flatten(hmap.chains))
  {
    hide Maps.Map.Valid, Maps.Flatten;
    var visited := Maps.Flatten(hmap.chains);
    Maps.VisitsEachNodeOnce(hmap);
    assert NoDup(visited);
    assert forall n :: n in visited ==> n.key in hmap.nodes && hmap.nodes[n.key] == n;
    assert forall k :: k in hmap.nodes ==> hmap.nodes[k] in visited;
    assert forall k :: k in hmap.nodes ==> hmap.nodes[k].key == k;
  }

  /** The names of the nodes visited so far whose entries are not deleted. */
  ghost function LiveNames(visited: seq<Maps.Node<string, Entry>>): set<string>
    reads visited`value, set n | n in visited :: n.value`deleted
  {
    set n | n in visited && !n.value.deleted :: n.key
  }

  /** A node visited brings in its own name, which no node before it had. */
  lemma LiveNamesStep(hmap: Maps.Map<string, Entry>, visited: seq<Maps.Node<string, Entry>>, i: nat)
    requires i < |visited| && Complete(hmap, visited)
    ensures |LiveNames(visited[..i + 1])| == |LiveNames(visited[..i])| + if visited[i].value.deleted then 0 else 1
  {
    var before, node := LiveNames(visited[..i]), visited[i];
    assert visited[..i + 1] == visited[..i] + [node];
    forall n | n in visited[..i]
      ensures n.key != node.key
    {
      assert n in visited && node in visited && n != node;
    }
    assert LiveNames(visited[..i + 1]) == if node.value.deleted then before else before + {node.key};
  }

  /** In the end they are the visible names of the set. */
  lemma LiveNamesAll(hmap: Maps.Map<string, Entry>, visited: seq<Maps.Node<string, Entry>>, data: map<string, Entry>,
                     chains: map<string, seq<Entry>>)
    requires HeadsOk(data, chains) && hmap.Contents() == data && Complete(hmap, visited)
    ensures LiveNames(visited) == VisibleNames(ContentsOf(chains))
  {
    hide HeadsOk, VisibleNames, ContentsOf;
    forall name
      ensures name in LiveNames(visited) <==> name in VisibleNames(ContentsOf(chains))
    {
      VisibleKnown(data, chains);
      if name in data {
        VisibleIffHeadLive(data, chains, name);
        assert hmap.nodes[name].key == name && hmap.nodes[name] in visited;
      }
    }
  }

  lemma VisibleKnown(data: map<string, Entry>, chains: map<string, seq<Entry>>)
    requires HeadsOk(data, chains)
    ensures VisibleNames(ContentsOf(chains)) <= data.Keys
  {
  }

  lemma VisibleIffHeadLive(data: map<string, Entry>, chains: map<string, seq<Entry>>, name: string)
    requires HeadsOk(data, chains) && name in data
    ensures name in VisibleNames(ContentsOf(chains)) <==> !data[name].deleted
  {
    HeadVersion(data, chains, name);
    hide ContentsOf;
  }

  // ---------------------------------------------------------------- teardown

  ghost function Reversed<T>(s: seq<T>): seq<T>
  {
    if s == [] then [] else Reversed(s[1..]) + [s[0]]
  }

  lemma {:induction false} ReversedElements<T>(s: seq<T>)
    ensures |Reversed(s)| == |s| && forall x :: x in Reversed(s) <==> x in s
    decreases |s|
  {
    if s != [] {
      ReversedElements(s[1..]);
      assert s == [s[0]] + s[1..];
    }
  }

  lemma {:induction false} ReversedNoDup<T>(s: seq<T>)
    requires NoDup(s)
    ensures NoDup(Reversed(s))
    decreases |s|
  {
    if s != [] {
      ReversedNoDup(s[1..]);
      ReversedElements(s[1..]);
      var r := Reversed(s[1..]);
      assert s[0] !in s[1..];
      assert Reversed(s) == r + [s[0]];
      forall i, j | 0 <= i < j < |r + [s[0]]|
        ensures (r + [s[0]])[i] != (r + [s[0]])[j]
      {
        if j == |r| {
          assert r[i] in r;
        }
      }
    }
  }

  /** The inner loop of `catalogSet_deinit`: one chain, newest entry first. */
  method FreeChain(head: Entry, ghost name: string, ghost c: seq<Entry>) returns (freed: seq<Entry>)
    requires ChainOk(name, c) && head == c[|c| - 1]
    modifies c`child, c`parent
    ensures freed == Reversed(c)
  {
    hide ChainOk, Reversed, Linked;
    freed := [];
    var entry: Entry? := head;
    ghost var i := |c|;
    assert c[..i] == c && [] + Reversed(c) == Reversed(c);
    ChildLinks(name, c);
    while entry != null
      invariant 0 <= i <= |c| && entry == Older(c, i)
      invariant Linked(c, i)
      invariant freed + Reversed(c[..i]) == Reversed(c)
      decreases i
    {
      var child := Unlink(entry, c, i);
      NextReversed(c, i, freed);
      freed := freed + [entry];
      entry := child;
      i := i - 1;
    }
    assert c[..0] == [] && freed + [] == freed;
    EmptyReversed<Entry>();
  }

  /** Takes the newest of the entries left off its chain and gives the next one. */
  method Unlink(entry: Entry, ghost c: seq<Entry>, ghost i: nat) returns (child: Entry?)
    requires 0 < i <= |c| && entry == c[i - 1] && Linked(c, i)
    modifies entry`child, entry`parent
    ensures child == Older(c, i - 1) && Linked(c, i - 1)
  {
    child := entry.child;
    entry.child := null;
    entry.parent := null;
  }

  /** The oldest `i` entries of a chain are still linked, and none of them is any of the newer ones. */
  ghost predicate Linked(c: seq<Entry>, i: nat)
    reads c`child, c`depth
  {
    && (forall k :: 0 <= k < |c| ==> c[k].depth == k)
    && (forall k :: 0 <= k < i && k < |c| ==> c[k].child == Older(c, k))
  }

  lemma ChildLinks(name: string, c: seq<Entry>)
    requires ChainOk(name, c)
    ensures |c| >= 2 && Linked(c, |c|)
  {
  }

  lemma EmptyReversed<T>()
    ensures Reversed<T>([]) == []
  {
  }

  lemma NextReversed<T>(c: seq<T>, i: nat, freed: seq<T>)
    requires 0 < i <= |c|
    ensures freed + Reversed(c[..i]) == freed + [c[i - 1]] + Reversed(c[..i - 1])
  {
    ReversedSnoc(c[..i - 1], c[i - 1]);
    assert c[..i] == c[..i - 1] + [c[i - 1]];
    hide Reversed;
    assert freed + ([c[i - 1]] + Reversed(c[..i - 1])) == freed + [c[i - 1]] + Reversed(c[..i - 1]);
  }

  lemma {:induction false} ReversedSnoc<T>(s: seq<T>, x: T)
    ensures Reversed(s + [x]) == [x] + Reversed(s)
    decreases |s|
  {
    if s == [] {
      assert s + [x] == [x];
    } else {
      assert (s + [x])[1..] == s[1..] + [x];
      ReversedSnoc(s[1..], x);
    }
  }

  /** The chains of `names` are intact, and no two chains share an entry. */
  ghost predicate Intact(chains: map<string, seq<Entry>>, names: set<string>)
    reads EntriesOf(chains)
  {
    && (forall n :: n in names && n in chains ==> (ChainEntries(chains, n); ChainOk(n, chains[n])))
    && (forall n :: n in chains ==> NoDup(chains[n]))
    && (forall n, m :: n in chains && m in chains && n != m ==> NoneShared(chains[n], chains[m]))
  }

  /** Frees the chain of `name` and leaves the others intact. */
  method FreeOne(head: Entry, name: string, ghost chains: map<string, seq<Entry>>, ghost rest: set<string>)
    returns (freed: seq<Entry>)
    requires Intact(chains, rest) && name in rest && name in chains
    requires |chains[name]| >= 2 && head == chains[name][|chains[name]| - 1]
    modifies EntriesOf(chains)`child, EntriesOf(chains)`parent
    ensures freed == Reversed(chains[name]) && Intact(chains, rest - {name})
  {
    hide NoDup, Reversed, ChainOk, NoneShared;
    ghost var c := chains[name];
    ChainEntries(chains, name);
    assert ChainOk(name, c);
    freed := FreeChain(head, name, c);
    forall n | n in rest - {name} && n in chains
      ensures ChainOk(n, chains[n])
    {
      assert NoneShared(chains[name], chains[n]);
      assert old(ChainOk(n, chains[n]));
      NoneSharedElements(c, chains[n]);
    }
  }

  /** The outer loop of `catalogSet_deinit`. */
  method FreeAll(data: map<string, Entry>, ghost chains: map<string, seq<Entry>>) returns (freed: seq<Entry>)
    requires AllChainsOk(chains) && HeadsOk(data, chains)
    modifies EntriesOf(chains)`child, EntriesOf(chains)`parent
    ensures NoDup(freed)
    ensures forall e :: e in freed <==> e in EntriesOf(chains)
  {
    ChainsDisjoint(chains);
    NamesTogether(data, chains);
    hide *;
    freed := [];
    var rest := data.Keys;
    ghost var done: set<string> := {};
    StartFreed(chains);
    while rest != {}
      invariant Split(done, rest, data.Keys) && Intact(chains, rest)
      invariant NoDup(freed) && Elems(freed) == UnionOf(chains, done)
      decreases |rest|
    {
      var name :| name in rest;
      SplitStep(done, rest, data.Keys, name);
      HeadIs(data, chains, name);
      FreeStep(chains, done, name, freed, rest);
      var more := FreeOne(data[name], name, chains, rest);
      freed := freed + more;
      rest := rest - {name};
      done := done + {name};
    }
    SplitEnd(done, data.Keys);
    AllFreed(chains, freed);
  }

  ghost predicate Split<T>(done: set<T>, rest: set<T>, all: set<T>)
  {
    done !! rest && done + rest == all
  }

  lemma SplitStep<T>(done: set<T>, rest: set<T>, all: set<T>, x: T)
    requires Split(done, rest, all) && x in rest
    ensures x in all && x !in done && Split(done + {x}, rest - {x}, all)
  {
  }

  lemma SplitEnd<T>(done: set<T>, all: set<T>)
    requires Split(done, {}, all)
    ensures done == all
  {
  }

  ghost function UnionOf(chains: map<string, seq<Entry>>, names: set<string>): set<Entry>
  {
    set n, e | n in names && n in chains && e in chains[n] :: e
  }

  lemma NoneSharedElements(a: seq<Entry>, b: seq<Entry>)
    requires NoneShared(a, b)
    ensures forall i :: 0 <= i < |b| ==> b[i] !in a
  {
  }

  lemma ChainsDisjoint(chains: map<string, seq<Entry>>)
    requires AllChainsOk(chains)
    ensures Intact(chains, chains.Keys)
  {
    forall n | n in chains
      ensures ChainOk(n, chains[n]) && forall e :: e in chains[n] ==> e.owner == n
    {
      assert ChainOk(n, chains[n]);
    }
  }

  lemma NamesTogether(data: map<string, Entry>, chains: map<string, seq<Entry>>)
    requires HeadsOk(data, chains)
    ensures data.Keys == chains.Keys
  {
  }

  lemma HeadIs(data: map<string, Entry>, chains: map<string, seq<Entry>>, name: string)
    requires HeadsOk(data, chains) && name in data
    ensures name in chains && |chains[name]| >= 2 && data[name] == chains[name][|chains[name]| - 1]
  {
  }

  lemma StartFreed(chains: map<string, seq<Entry>>)
    ensures NoDup<Entry>([]) && Elems<Entry>([]) == UnionOf(chains, {})
    ensures Split({}, chains.Keys, chains.Keys)
  {
  }

  /** One more chain, reversed, on what was freed so far. */
  lemma FreeStep(chains: map<string, seq<Entry>>, done: set<string>, name: string, freed: seq<Entry>,
                 rest: set<string>)
    requires name in chains && name !in done && NoDup(freed) && Intact(chains, rest)
    requires Elems(freed) == UnionOf(chains, done)
    ensures NoDup(freed + Reversed(chains[name]))
    ensures Elems(freed + Reversed(chains[name])) == UnionOf(chains, done + {name})
  {
    var r := Reversed(chains[name]);
    ReversedElements(chains[name]);
    ReversedNoDup(chains[name]);
    hide Reversed, ChainOk;
    forall x | x in freed
      ensures x !in r
    {
      assert x in Elems(freed);
      var n :| n in done && n in chains && x in chains[n];
      assert NoneShared(chains[name], chains[n]);
    }
    NoDupConcat(freed, r);
    hide NoDup;
    assert Elems(freed + r) == Elems(freed) + Elems(r);
    assert UnionOf(chains, done + {name}) == UnionOf(chains, done) + Elems(chains[name]);
    assert Elems(r) == Elems(chains[name]);
  }

  lemma AllFreed(chains: map<string, seq<Entry>>, freed: seq<Entry>)
    requires Elems(freed) == UnionOf(chains, chains.Keys)
    ensures forall e :: e in freed <==> e in EntriesOf(chains)
  {
    assert UnionOf(chains, chains.Keys) == EntriesOf(chains);
    assert forall e :: e in freed <==> e in Elems(freed);
  }

  /** Links `value` in and leaves every other chain alone. */
  method LinkIn(name: string, value: Entry, ghost c: seq<Entry>, head: Entry, ghost chains: map<string, seq<Entry>>)
    requires AllChainsOk(chains) && value !in EntriesOf(chains)
    requires Extendable(name, c, value) && head == c[|c| - 1]
    modifies value, head`parent
    ensures AllChainsOk(chains[name := c + [value]])
    ensures value.deleted == old(value.deleted)
  {
    ghost var chains' := chains[name := c + [value]];
    OthersUntouched(chains, name, c, value);
    label Before:
    Attach(name, value, c, head);
    hide ChainOk;
    forall n | n in chains'
      ensures ChainOk(n, chains'[n])
    {
      if n != name {
        assert old@Before(ChainOk(n, chains[n]));
        Untouched(chains[n], value, head);
      }
    }
  }

  method NewTombstone(name: string) returns (stone: Entry)
    ensures fresh(stone) && stone.kind == Invalid && stone.deleted && stone.parent == null
  {
    stone := new Entry(Invalid, name);
    stone.deleted := true;
  }

  method NewDummy(name: string) returns (dummy: Entry)
    ensures fresh(dummy) && dummy.owner == name && dummy.depth == 0
    ensures dummy.kind == Invalid && !dummy.deleted && dummy.parent == null && dummy.child == null
  {
    dummy := new Entry(Invalid, name);
    dummy.owner, dummy.depth := name, 0;
  }

  lemma PushReady(data: map<string, Entry>, chains: map<string, seq<Entry>>, name: string, value: Entry)
    requires AllChainsOk(chains) && HeadsOk(data, chains) && name in data
    requires value !in EntriesOf(chains) && value.parent == null && (value.deleted ==> value.kind == Invalid)
    ensures Extendable(name, chains[name], value) && data[name] == chains[name][|chains[name]| - 1]
    ensures data[name] in EntriesOf(chains)
  {
    ChainEntries(chains, name);
    assert ChainOk(name, chains[name]);
  }

  lemma PushReadyNew(name: string, dummy: Entry, value: Entry)
    requires dummy != value && dummy.owner == name && dummy.depth == 0 && dummy.kind == Invalid && dummy.child == null
    requires value.parent == null && (value.deleted ==> value.kind == Invalid)
    ensures Extendable(name, [dummy], value)
    ensures VersionsOf([dummy]) == [Dummy]
  {
    var none := [dummy][..0];
    assert VersionsOf(none) == [];
  }

  ghost predicate NotIn(c: seq<Entry>, e: Entry)
  {
    forall i :: 0 <= i < |c| ==> c[i] != e
  }

  lemma Untouched(c: seq<Entry>, a: Entry, b: Entry)
    requires NotIn(c, a) && NotIn(c, b)
    ensures a !in c && b !in c
  {
  }

  /** `c` is a chain, or a lone dummy, that `value` can be put on. */
  ghost predicate Extendable(name: string, c: seq<Entry>, value: Entry)
    reads c, value
  {
    && |c| >= 1 && NotIn(c, value) && Spine(name, c) && BackLinked(c, |c| - 1)
    && value.parent == null && (value.deleted ==> value.kind == Invalid)
  }

  lemma ExtendableFacts(name: string, c: seq<Entry>, value: Entry)
    requires Extendable(name, c, value)
    ensures |c| >= 1 && value !in c
  {
  }

  lemma OthersUntouched(chains: map<string, seq<Entry>>, name: string, c: seq<Entry>, value: Entry)
    requires AllChainsOk(chains) && value !in EntriesOf(chains) && Extendable(name, c, value)
    ensures forall n :: n in chains && n != name ==> NotIn(chains[n], value) && NotIn(chains[n], c[|c| - 1])
  {
    forall n | n in chains && n != name
      ensures NotIn(chains[n], value) && NotIn(chains[n], c[|c| - 1])
    {
      ChainEntries(chains, n);
      assert ChainOk(n, chains[n]);
    }
  }

  /** The pointer updates that create and drop share. */
  method Attach(name: string, value: Entry, ghost c: seq<Entry>, head: Entry)
    requires Extendable(name, c, value) && head == c[|c| - 1]
    modifies value, head`parent
    ensures ChainOk(name, c + [value]) && value.deleted == old(value.deleted)
  {
    hide Spine;
    ExtendableFacts(name, c, value);
    HeadApart(name, c);
    value.child := head;
    head.parent := value;
    value.owner := name;
    value.depth := |c|;
    assert Spine(name, c);
    SpineSnoc(name, c, value);
    BackLinkedSnoc(c, value);
  }

  lemma HeadApart(name: string, c: seq<Entry>)
    requires Spine(name, c)
    ensures forall i :: 0 <= i < |c| - 1 ==> c[i] != c[|c| - 1]
  {
  }

  lemma SpineSnoc(name: string, c: seq<Entry>, value: Entry)
    requires Spine(name, c)
    requires value.owner == name && value.depth == |c| && value.child == c[|c| - 1]
    requires value.deleted ==> value.kind == Invalid
    ensures Spine(name, c + [value])
  {
  }

  lemma BackLinkedSnoc(c: seq<Entry>, value: Entry)
    requires |c| >= 1 && BackLinked(c, |c| - 1) && c[|c| - 1].parent == value && value.parent == null
    ensures BackLinked(c + [value], |c| + 1)
  {
  }
}
