/**
 The configuration tree: publications at the nodes of a tree (json_tree/node.py of the client),
 rendered to one nested dictionary, and the lookup of a path in it (abstract_hw_controller.py
 of the hardware_mng package). Dictionaries are values.
 */
module ConfigTree {
  import opened Options

  /** A JSON value: a dictionary, or anything else. */
  datatype Json = Leaf(text: string) | Dict(entries: map<string, Json>)

  // ---------- deep_merge ----------

  /** What deep_merge leaves where `src` meets `dst`: dictionaries merge, anything else is
      replaced. */
  function Merged(dst: Json, src: Json): (r: Json)
    decreases src
  {
    if dst.Dict? && src.Dict? then
      Dict(map k | k in dst.entries.Keys + src.entries.Keys ::
             if k !in src.entries then dst.entries[k]
             else if k !in dst.entries then src.entries[k]
             else Merged(dst.entries[k], src.entries[k]))
    else src
  }

  /** _fetch_dict_deep: the value at a path of keys, if every step finds a dictionary. */
  function Fetch(j: Json, path: seq<string>): Option<Json>
    decreases |path|
  {
    if path == [] then Some(j)
    else if j.Dict? && path[0] in j.entries then Fetch(j.entries[path[0]], path[1..])
    else None
  }

  /** Some proper prefix of the path holds a non-dictionary. */
  predicate Blocks(j: Json, path: seq<string>)
    decreases |path|
  {
    path != [] && (j.Leaf? || (path[0] in j.entries && Blocks(j.entries[path[0]], path[1..])))
  }

  /** The values on the way from j along a path to v, each held by the dictionary before it. */
  ghost predicate Trail(j: Json, path: seq<string>, v: Json, trail: seq<Json>)
  {
    && |trail| == |path| + 1 && trail[0] == j && trail[|path|] == v
    && forall i | 0 <= i < |path| ::
         trail[i].Dict? && path[i] in trail[i].entries && trail[i].entries[path[i]] == trail[i + 1]
  }

  /** A lookup finds a value exactly when dictionaries lead to it, key by key. */
  lemma {:induction false} FetchFollows(j: Json, path: seq<string>, v: Json)
    ensures Fetch(j, path) == Some(v) <==> exists trail :: Trail(j, path, v, trail)
    decreases |path|
  {
    if path == [] {
      if j == v { assert Trail(j, path, v, [j]); }
    } else if j.Dict? && path[0] in j.entries {
      var k := j.entries[path[0]];
      FetchFollows(k, path[1..], v);
      if trail :| Trail(k, path[1..], v, trail) {
        var longer := [j] + trail;
        forall i | 0 <= i < |path|
          ensures longer[i].Dict? && path[i] in longer[i].entries && longer[i].entries[path[i]] == longer[i + 1]
        {
          if i > 0 { assert longer[i] == trail[i - 1] && path[i] == path[1..][i - 1]; }
        }
        assert Trail(j, path, v, longer);
      }
      if trail :| Trail(j, path, v, trail) {
        assert trail[1] == k;
        assert Trail(k, path[1..], v, trail[1..]);
      }
    }
  }

  /** What can be seen of a value without going further down: the text of a non-dictionary, the keys
      of a dictionary. */
  datatype Sight = Text(text: string) | Keys(keys: set<string>)

  function See(j: Option<Json>): Option<Sight>
  {
    match j
    case None => None
    case Some(Leaf(t)) => Some(Text(t))
    case Some(Dict(e)) => Some(Keys(e.Keys))
  }

  /** What should be seen at a path once src is merged into dst: a non-dictionary of src as it is;
      where both have dictionaries, the keys of both; a dictionary of src where dst has none;
      nothing where src put a non-dictionary on the way; and what dst has everywhere else. */
  function MergeSight(dst: Option<Json>, src: Option<Json>, blocked: bool): Option<Sight>
  {
    match (dst, src)
    case (_, Some(Leaf(t))) => Some(Text(t))
    case (Some(Dict(d)), Some(Dict(e))) => Some(Keys(d.Keys + e.Keys))
    case (_, Some(Dict(e))) => Some(Keys(e.Keys))
    case (x, None) => if blocked then None else See(x)
  }

  predicate LooksMerged(dst: Json, src: Json, m: Json, path: seq<string>)
  {
    See(Fetch(m, path)) == MergeSight(Fetch(dst, path), Fetch(src, path), Blocks(src, path))
  }

  /** deep_merge, path by path. */
  lemma {:induction false} MergedAtPath(dst: Json, src: Json, path: seq<string>)
    ensures LooksMerged(dst, src, Merged(dst, src), path)
    decreases |path|
  {
    if dst.Dict? && src.Dict? {
      var m := Merged(dst, src);
      assert m.entries.Keys == dst.entries.Keys + src.entries.Keys;
      if path != [] && path[0] in dst.entries && path[0] in src.entries {
        MergedAtPath(dst.entries[path[0]], src.entries[path[0]], path[1..]);
      }
    }
  }

  /** Values that look the same at every path are the same. */
  lemma {:induction false} SameSights(a: Json, b: Json)
    requires forall path :: See(Fetch(a, path)) == See(Fetch(b, path))
    ensures a == b
    decreases a
  {
    assert See(Fetch(a, [])) == See(Fetch(b, []));
    if a.Dict? {
      forall k | k in a.entries ensures a.entries[k] == b.entries[k] {
        forall path ensures See(Fetch(a.entries[k], path)) == See(Fetch(b.entries[k], path)) {
          var longer := [k] + path;
          assert longer[1..] == path && See(Fetch(a, longer)) == See(Fetch(b, longer));
        }
        SameSights(a.entries[k], b.entries[k]);
      }
      assert a.entries == b.entries;
    }
  }

  /** So deep_merge leaves the one value that looks, at every path, as told from source and
      destination. */
  lemma MergedExactly(dst: Json, src: Json, m: Json)
    ensures m == Merged(dst, src) <==> forall path :: LooksMerged(dst, src, m, path)
  {
    var r := Merged(dst, src);
    forall path ensures LooksMerged(dst, src, r, path) {
      MergedAtPath(dst, src, path);
    }
    if forall path :: LooksMerged(dst, src, m, path) {
      forall path ensures See(Fetch(m, path)) == See(Fetch(r, path)) {
        assert LooksMerged(dst, src, m, path) && LooksMerged(dst, src, r, path);
      }
      SameSights(m, r);
    }
  }

  /** Merging the same value twice equals merging it once. */
  lemma {:induction false} MergedIdempotent(dst: Json, src: Json)
    ensures Merged(Merged(dst, src), src) == Merged(dst, src)
    decreases src
  {
    if src.Dict? {
      var once := Merged(dst, src);
      forall k | k in src.entries
        ensures Merged(once.entries[k], src.entries[k]) == once.entries[k]
      {
        if dst.Dict? && k in dst.entries {
          MergedIdempotent(dst.entries[k], src.entries[k]);
        } else {
          MergedSelf(src.entries[k]);
        }
      }
      assert Merged(once, src).entries == once.entries;
    }
  }

  lemma {:induction false} MergedSelf(j: Json)
    ensures Merged(j, j) == j
  {
    if j.Dict? {
      forall k | k in j.entries ensures Merged(j.entries[k], j.entries[k]) == j.entries[k] {
        MergedSelf(j.entries[k]);
      }
      assert Merged(j, j).entries == j.entries;
    }
  }

  // ---------- Nodes ----------

  /** A node: its children by name, and what was published at it by key. */
  datatype Node = Node(children: map<string, Node>, data: map<string, Json>)

  predicate HasNode(n: Node, path: seq<string>)
    decreases |path|
  {
    path == [] || (path[0] in n.children && HasNode(n.children[path[0]], path[1..]))
  }

  function NodeAt(n: Node, path: seq<string>): Node
    requires HasNode(n, path)
    decreases |path|
  {
    if path == [] then n else NodeAt(n.children[path[0]], path[1..])
  }

  /** publish(key, value) at this node. */
  function PublishHere(n: Node, key: string, value: map<string, Json>): Node
  {
    var prior := if key in n.data then n.data[key] else Dict(map[]);
    n.(data := n.data[key := Merged(prior, Dict(value))])
  }

  function Publish(n: Node, path: seq<string>, key: string, value: map<string, Json>): Node
    requires HasNode(n, path)
    decreases |path|
  {
    if path == [] then PublishHere(n, key, value)
    else n.(children := n.children[path[0] := Publish(n.children[path[0]], path[1..], key, value)])
  }

  /** _build: own data, then every child that renders to something. */
  function Build(n: Node): map<string, Json>
  {
    var kids := map c | c in n.children :: Build(n.children[c]);
    n.data + map c | c in kids && kids[c] != map[] :: Dict(kids[c])
  }

  /** No published key is the name of a child of the same node. */
  ghost predicate NoClash(n: Node)
  {
    forall q | HasNode(n, q) :: NodeAt(n, q).data.Keys !! NodeAt(n, q).children.Keys
  }

  lemma ChildNoClash(n: Node, c: string)
    requires NoClash(n) && c in n.children
    ensures NoClash(n.children[c]) && c !in n.data
  {
    forall q | HasNode(n.children[c], q)
      ensures NodeAt(n.children[c], q).data.Keys !! NodeAt(n.children[c], q).children.Keys
    {
      var p := [c] + q;
      assert p[1..] == q && HasNode(n, p) && NodeAt(n, p) == NodeAt(n.children[c], q);
    }
    assert HasNode(n, []);
  }

  /** The rendering, entry by entry. */
  lemma BuildEntry(n: Node, key: string)
    ensures var shown := key in n.children && Build(n.children[key]) != map[];
            && (key in Build(n) <==> shown || key in n.data)
            && (shown ==> Build(n)[key] == Dict(Build(n.children[key])))
            && (!shown && key in n.data ==> Build(n)[key] == n.data[key])
  {
  }

  /** What a single key of the rendering shows: a child that renders to something hides a
      publication under its name. */
  lemma BuildShows(n: Node, key: string)
    ensures Fetch(Dict(Build(n)), [key]) ==
            if key in n.children && Build(n.children[key]) != map[] then Some(Dict(Build(n.children[key])))
            else if key in n.data then Some(n.data[key]) else None
  {
    assert [key][1..] == [];
  }

  /** Looking up a node's path and a key in the rendering finds exactly what that node holds. */
  lemma {:induction false} FetchBuild(n: Node, path: seq<string>, key: string)
    requires NoClash(n) && HasNode(n, path) && key !in NodeAt(n, path).children
    ensures Fetch(Dict(Build(n)), path + [key]) ==
            if key in NodeAt(n, path).data then Some(NodeAt(n, path).data[key]) else None
    decreases |path|
  {
    if path == [] {
      assert path + [key] == [key];
      BuildShows(n, key);
    } else {
      var c, rest := path[0], path[1..];
      ChildNoClash(n, c);
      FetchBuild(n.children[c], rest, key);
      assert (path + [key])[0] == c && (path + [key])[1..] == rest + [key];
      BuildShows(n, c);
      var b := Build(n);
      if Build(n.children[c]) != map[] { assert b[c] == Dict(Build(n.children[c])); }
    }
  }

  // ---------- Publications over time ----------

  datatype Pub = Pub(path: seq<string>, key: string, value: map<string, Json>)

  lemma {:induction false} PublishAt(n: Node, path: seq<string>, key: string, value: map<string, Json>, q: seq<string>)
    requires HasNode(n, path)
    ensures HasNode(Publish(n, path, key, value), q) <==> HasNode(n, q)
    ensures HasNode(n, q) ==>
              var before, later := NodeAt(n, q), NodeAt(Publish(n, path, key, value), q);
              && later.data == (if q == path then PublishHere(before, key, value).data else before.data)
              && later.children.Keys == before.children.Keys
    decreases |path|
  {
    if path != [] && q != [] && q[0] == path[0] {
      PublishAt(n.children[path[0]], path[1..], key, value, q[1..]);
      assert q == [q[0]] + q[1..] && path == [path[0]] + path[1..];
    }
  }

  /** The tree after a list of publications, the last one at the end. */
  function After(n: Node, pubs: seq<Pub>): (r: Node)
    requires forall p | p in pubs :: HasNode(n, p.path)
    ensures forall q :: HasNode(r, q) <==> HasNode(n, q)
  {
    if pubs == [] then n
    else
      var m, p := After(n, pubs[..|pubs| - 1]), pubs[|pubs| - 1];
      assert p in pubs;
      assert forall q :: HasNode(Publish(m, p.path, p.key, p.value), q) <==> HasNode(m, q) by {
        forall q { PublishAt(m, p.path, p.key, p.value, q); }
      }
      Publish(m, p.path, p.key, p.value)
  }

  /** The in-order merge of everything published at a path under a key. */
  function Published(pubs: seq<Pub>, path: seq<string>, key: string): Option<Json>
  {
    if pubs == [] then None
    else
      var before, p := Published(pubs[..|pubs| - 1], path, key), pubs[|pubs| - 1];
      if p.path != path || p.key != key then before
      else Some(Merged(if before.Some? then before.value else Dict(map[]), Dict(p.value)))
  }

  lemma {:induction false} PublishedExactly(pubs: seq<Pub>, path: seq<string>, key: string)
    ensures Published(pubs, path, key).Some? <==> exists p :: p in pubs && p.path == path && p.key == key
  {
    if pubs != [] {
      PublishedExactly(pubs[..|pubs| - 1], path, key);
      assert pubs == pubs[..|pubs| - 1] + [pubs[|pubs| - 1]];
    }
  }

  /** Each node holds, under each key, the merge of what was published there. */
  lemma {:induction false} NodeHolds(n: Node, pubs: seq<Pub>, path: seq<string>)
    requires forall p | p in pubs :: HasNode(n, p.path)
    requires HasNode(n, path) && NodeAt(n, path).data == map[]
    ensures var r := NodeAt(After(n, pubs), path);
            && r.children.Keys == NodeAt(n, path).children.Keys
            && forall key :: (key in r.data <==> Published(pubs, path, key).Some?)
                          && (key in r.data ==> Some(r.data[key]) == Published(pubs, path, key))
  {
    if pubs != [] {
      var rest, p := pubs[..|pubs| - 1], pubs[|pubs| - 1];
      assert forall x | x in rest :: x in pubs;
      assert p in pubs;
      NodeHolds(n, rest, path);
      PublishAt(After(n, rest), p.path, p.key, p.value, path);
    }
  }

  ghost predicate Blank(n: Node) { forall q | HasNode(n, q) :: NodeAt(n, q).data == map[] }

  /** Each publication is at a node of the tree, under a key that names none of its children. */
  ghost predicate Proper(n: Node, pubs: seq<Pub>)
  {
    forall p | p in pubs :: HasNode(n, p.path) && p.key !in NodeAt(n, p.path).children
  }

  lemma ProperNoClash(n: Node, pubs: seq<Pub>)
    requires Blank(n) && Proper(n, pubs)
    ensures NoClash(After(n, pubs))
  {
    var r := After(n, pubs);
    forall q | HasNode(r, q)
      ensures NodeAt(r, q).data.Keys !! NodeAt(r, q).children.Keys
    {
      NodeHolds(n, pubs, q);
      forall key | key in NodeAt(r, q).data ensures key !in NodeAt(r, q).children {
        PublishedExactly(pubs, q, key);
        var p :| p in pubs && p.path == q && p.key == key;
        assert p.key !in NodeAt(n, p.path).children;
      }
    }
  }

  /** After any sequence of publications, a lookup of node path plus key in gather() succeeds
      exactly when something was published there, and returns the in-order merge of it all. */
  lemma GatherExactly(n: Node, pubs: seq<Pub>, path: seq<string>, key: string)
    requires Blank(n) && Proper(n, pubs)
    requires HasNode(n, path) && key !in NodeAt(n, path).children
    ensures Fetch(Dict(Build(After(n, pubs))), path + [key]) == Published(pubs, path, key)
    ensures Fetch(Dict(Build(After(n, pubs))), path + [key]).Some? <==>
            exists p :: p in pubs && p.path == path && p.key == key
  {
    ProperNoClash(n, pubs);
    NodeHolds(n, pubs, path);
    FetchBuild(After(n, pubs), path, key);
    PublishedExactly(pubs, path, key);
  }

  // ---------- The last publication counts ----------

  /** Publication i is at this node and key. */
  predicate AtKey(p: Pub, path: seq<string>, key: string) { p.path == path && p.key == key }

  /** It says something about the place `rest` below its key: it has something there, or a
      non-dictionary on the way there. */
  predicate Reaches(p: Pub, rest: seq<string>)
  {
    Fetch(Dict(p.value), rest).Some? || Blocks(Dict(p.value), rest)
  }

  /** Publication i put this non-dictionary at the place, and none after it reached the place. */
  ghost predicate LastLeaf(pubs: seq<Pub>, i: int, path: seq<string>, key: string, rest: seq<string>, text: string)
  {
    && 0 <= i < |pubs| && AtKey(pubs[i], path, key) && Fetch(Dict(pubs[i].value), rest) == Some(Leaf(text))
    && forall j | i < j < |pubs| && AtKey(pubs[j], path, key) :: !Reaches(pubs[j], rest)
  }

  /** Publication i put something at the place, and none after it a non-dictionary on the way. */
  ghost predicate Shown(pubs: seq<Pub>, i: int, path: seq<string>, key: string, rest: seq<string>)
  {
    && 0 <= i < |pubs| && AtKey(pubs[i], path, key) && Fetch(Dict(pubs[i].value), rest).Some?
    && forall j | i < j < |pubs| && AtKey(pubs[j], path, key) :: !Blocks(Dict(pubs[j].value), rest)
  }

  /** What was published at a node and key, at a place below the key. */
  function PublishedBelow(pubs: seq<Pub>, path: seq<string>, key: string, rest: seq<string>): Option<Json>
  {
    match Published(pubs, path, key)
    case Some(j) => Fetch(j, rest)
    case None => None
  }

  /** One more publication, as seen at a place. */
  lemma PublishedBelowStep(pubs: seq<Pub>, p: Pub, path: seq<string>, key: string, rest: seq<string>)
    ensures var before, later := PublishedBelow(pubs, path, key, rest), PublishedBelow(pubs + [p], path, key, rest);
            && (!AtKey(p, path, key) ==> later == before)
            && (AtKey(p, path, key) ==>
                  See(later) == MergeSight(before, Fetch(Dict(p.value), rest), Blocks(Dict(p.value), rest)))
  {
    assert (pubs + [p])[..|pubs|] == pubs;
    if AtKey(p, path, key) {
      var prior := match Published(pubs, path, key) case Some(j) => j case None => Dict(map[]);
      MergedAtPath(prior, Dict(p.value), rest);
      var empty: map<string, Json> := map[];
      assert empty.Keys + p.value.Keys == p.value.Keys;
    }
  }

  lemma LastLeafSnoc(pubs: seq<Pub>, p: Pub, path: seq<string>, key: string, rest: seq<string>, text: string)
    ensures (exists i :: LastLeaf(pubs + [p], i, path, key, rest, text)) <==>
            || (AtKey(p, path, key) && Fetch(Dict(p.value), rest) == Some(Leaf(text)))
            || ((AtKey(p, path, key) ==> !Reaches(p, rest)) && exists i :: LastLeaf(pubs, i, path, key, rest, text))
  {
    var longer := pubs + [p];
    if i :| LastLeaf(longer, i, path, key, rest, text) {
      if i < |pubs| {
        assert longer[i] == pubs[i] && longer[|pubs|] == p;
        assert forall j | i < j < |pubs| :: pubs[j] == longer[j];
        assert LastLeaf(pubs, i, path, key, rest, text);
      }
    }
    if AtKey(p, path, key) && Fetch(Dict(p.value), rest) == Some(Leaf(text)) {
      assert LastLeaf(longer, |pubs|, path, key, rest, text);
    }
    if i :| LastLeaf(pubs, i, path, key, rest, text) && (AtKey(p, path, key) ==> !Reaches(p, rest)) {
      assert LastLeaf(longer, i, path, key, rest, text);
    }
  }

  lemma ShownSnoc(pubs: seq<Pub>, p: Pub, path: seq<string>, key: string, rest: seq<string>)
    ensures (exists i :: Shown(pubs + [p], i, path, key, rest)) <==>
            || (AtKey(p, path, key) && Fetch(Dict(p.value), rest).Some?)
            || ((AtKey(p, path, key) ==> !Blocks(Dict(p.value), rest)) && exists i :: Shown(pubs, i, path, key, rest))
  {
    var longer := pubs + [p];
    if i :| Shown(longer, i, path, key, rest) {
      if i < |pubs| {
        assert longer[i] == pubs[i] && longer[|pubs|] == p;
        assert forall j | i < j < |pubs| :: pubs[j] == longer[j];
        assert Shown(pubs, i, path, key, rest);
      }
    }
    if AtKey(p, path, key) && Fetch(Dict(p.value), rest).Some? {
      assert Shown(longer, |pubs|, path, key, rest);
    }
    if i :| Shown(pubs, i, path, key, rest) && (AtKey(p, path, key) ==> !Blocks(Dict(p.value), rest)) {
      assert Shown(longer, i, path, key, rest);
    }
  }

  lemma {:induction false} PublishedBelowExactly(pubs: seq<Pub>, path: seq<string>, key: string, rest: seq<string>,
                                                 text: string)
    ensures PublishedBelow(pubs, path, key, rest) == Some(Leaf(text)) <==>
            exists i :: LastLeaf(pubs, i, path, key, rest, text)
    ensures PublishedBelow(pubs, path, key, rest).Some? <==> exists i :: Shown(pubs, i, path, key, rest)
    decreases |pubs|
  {
    if pubs != [] {
      hide Published, Fetch, Blocks, LastLeaf, Shown;
      var before, p := pubs[..|pubs| - 1], pubs[|pubs| - 1];
      assert pubs == before + [p];
      PublishedBelowExactly(before, path, key, rest, text);
      PublishedBelowStep(before, p, path, key, rest);
      LastLeafSnoc(before, p, path, key, rest, text);
      ShownSnoc(before, p, path, key, rest);
      BlockedNotThere(Dict(p.value), rest);
    }
  }

  lemma {:induction false} BlockedNotThere(j: Json, path: seq<string>)
    ensures !(Blocks(j, path) && Fetch(j, path).Some?)
    decreases |path|
  {
    if path != [] && j.Dict? && path[0] in j.entries { BlockedNotThere(j.entries[path[0]], path[1..]); }
  }

  lemma {:induction false} FetchConcat(j: Json, a: seq<string>, b: seq<string>)
    ensures Fetch(j, a + b) == match Fetch(j, a) case Some(x) => Fetch(x, b) case None => None
    decreases |a|
  {
    if a == [] {
      assert a + b == b;
    } else {
      assert (a + b)[1..] == a[1..] + b;
      if j.Dict? && a[0] in j.entries { FetchConcat(j.entries[a[0]], a[1..], b); }
    }
  }

  /** After any sequence of publications, at any place below a node's key: gather() shows a
      non-dictionary exactly when the last publication that reached the place put it there, and
      shows something exactly when some publication put something there and none after it put a
      non-dictionary on the way. */
  lemma GatherShowsLast(n: Node, pubs: seq<Pub>, path: seq<string>, key: string, rest: seq<string>, text: string)
    requires Blank(n) && Proper(n, pubs)
    requires HasNode(n, path) && key !in NodeAt(n, path).children
    ensures var shown := Fetch(Dict(Build(After(n, pubs))), path + [key] + rest);
            && (shown == Some(Leaf(text)) <==> exists i :: LastLeaf(pubs, i, path, key, rest, text))
            && (shown.Some? <==> exists i :: Shown(pubs, i, path, key, rest))
  {
    hide Build, After, Fetch, LastLeaf, Shown;
    GatherExactly(n, pubs, path, key);
    FetchConcat(Dict(Build(After(n, pubs))), path + [key], rest);
    PublishedBelowExactly(pubs, path, key, rest, text);
  }

  // ---------- Keys that are names of children ----------

  lemma {:induction false} NodeBelow(n: Node, path: seq<string>, q: seq<string>)
    ensures HasNode(n, path + q) <==> HasNode(n, path) && HasNode(NodeAt(n, path), q)
    ensures HasNode(n, path + q) ==> NodeAt(n, path + q) == NodeAt(NodeAt(n, path), q)
    decreases |path|
  {
    if path == [] {
      assert path + q == q;
    } else {
      assert (path + q)[0] == path[0] && (path + q)[1..] == path[1..] + q;
      if path[0] in n.children { NodeBelow(n.children[path[0]], path[1..], q); }
    }
  }

  /** Data at or below a node make it render to something. */
  lemma {:induction false} HoldsRenders(n: Node, q: seq<string>)
    requires HasNode(n, q) && NodeAt(n, q).data != map[]
    ensures Build(n) != map[]
    decreases |q|
  {
    hide Build;
    if q == [] {
      EmptyOrNot(n.data.Keys);
      var k :| k in n.data;
      BuildEntry(n, k);
    } else {
      HoldsRenders(n.children[q[0]], q[1..]);
      BuildEntry(n, q[0]);
    }
  }

  /** And nothing else does. */
  lemma {:induction false} RendersHolds(n: Node) returns (q: seq<string>)
    requires Build(n) != map[]
    ensures HasNode(n, q) && NodeAt(n, q).data != map[]
    decreases n
  {
    hide Build;
    q := [];
    if n.data == map[] {
      EmptyOrNot(Build(n).Keys);
      var c :| c in Build(n);
      BuildEntry(n, c);
      var rest := RendersHolds(n.children[c]);
      q := [c] + rest;
      assert q[1..] == rest;
    }
  }

  /** A node that renders to something is reached by its path, whatever was published under the
      names on the way. */
  lemma {:induction false} FetchThrough(n: Node, path: seq<string>, tail: seq<string>)
    requires HasNode(n, path) && Build(NodeAt(n, path)) != map[]
    ensures Build(n) != map[]
    ensures Fetch(Dict(Build(n)), path + tail) == Fetch(Dict(Build(NodeAt(n, path))), tail)
    decreases |path|
  {
    hide Build;
    if path == [] {
      assert path + tail == tail;
    } else {
      var c := path[0];
      FetchThrough(n.children[c], path[1..], tail);
      assert (path + tail)[0] == c && (path + tail)[1..] == path[1..] + tail;
      BuildEntry(n, c);
    }
  }

  /** Something was published at the node of this path or below it. */
  ghost predicate Under(pubs: seq<Pub>, path: seq<string>)
  {
    exists p :: p in pubs && path <= p.path
  }

  lemma RendersExactly(n: Node, pubs: seq<Pub>, path: seq<string>)
    requires Blank(n) && (forall p | p in pubs :: HasNode(n, p.path)) && HasNode(n, path)
    ensures Build(NodeAt(After(n, pubs), path)) != map[] <==> Under(pubs, path)
  {
    hide Build, After;
    var r := After(n, pubs);
    if Build(NodeAt(r, path)) != map[] {
      var q := RendersHolds(NodeAt(r, path));
      NodeBelow(r, path, q);
      NodeHolds(n, pubs, path + q);
      EmptyOrNot(NodeAt(r, path + q).data.Keys);
      var key :| key in NodeAt(r, path + q).data;
      PublishedExactly(pubs, path + q, key);
    }
    if p :| p in pubs && path <= p.path {
      var q := p.path[|path|..];
      assert p.path == path + q;
      NodeBelow(r, path, q);
      NodeHolds(n, pubs, p.path);
      PublishedExactly(pubs, p.path, p.key);
      assert p.key in NodeAt(r, p.path).data;
      HoldsRenders(NodeAt(r, path), q);
    }
  }

  /** One step of a lookup, from a node at or below which something was published. It goes on in
      the child of that name if something was published at or below it, and otherwise in what was
      published here under that key. */
  lemma LookupStep(n: Node, pubs: seq<Pub>, q: seq<string>, c: string, rest: seq<string>)
    requires Blank(n) && (forall p | p in pubs :: HasNode(n, p.path)) && HasNode(n, q) && Under(pubs, q)
    ensures var r := After(n, pubs);
            && (Under(pubs, q + [c]) ==> HasNode(n, q + [c]))
            && Fetch(Dict(Build(NodeAt(r, q))), [c] + rest) ==
               if Under(pubs, q + [c]) then Fetch(Dict(Build(NodeAt(r, q + [c]))), rest)
               else match Published(pubs, q, c)
                 case Some(j) => Fetch(j, rest)
                 case None => None
  {
    hide Build, After, NodeAt, HasNode;
    var r := After(n, pubs);
    var at := NodeAt(r, q);
    BuildEntry(at, c);
    NodeHolds(n, pubs, q);
    ChildNode(r, q, c);
    if HasNode(n, q + [c]) { RendersExactly(n, pubs, q + [c]); }
    if p :| p in pubs && q + [c] <= p.path {
      assert p.path == (q + [c]) + p.path[|q| + 1..];
      NodeBelow(n, q + [c], p.path[|q| + 1..]);
    }
    assert ([c] + rest)[1..] == rest;
  }

  /** What a lookup of `rest` from the node at q should find, told from the publications: the
      rendering of a node at or below which something was published, or else a part of what was
      published on the way under a name that leads no further. */
  ghost function Found(r: Node, pubs: seq<Pub>, q: seq<string>, rest: seq<string>): Option<Json>
    requires HasNode(r, q)
    decreases |rest|
  {
    if rest == [] then Some(Dict(Build(NodeAt(r, q))))
    else if HasNode(r, q + [rest[0]]) && Under(pubs, q + [rest[0]]) then Found(r, pubs, q + [rest[0]], rest[1..])
    else match Published(pubs, q, rest[0])
      case Some(j) => Fetch(j, rest[1..])
      case None => None
  }

  lemma {:induction false} LookupFrom(n: Node, pubs: seq<Pub>, q: seq<string>, rest: seq<string>)
    requires Blank(n) && (forall p | p in pubs :: HasNode(n, p.path)) && HasNode(n, q) && Under(pubs, q)
    ensures var r := After(n, pubs); Fetch(Dict(Build(NodeAt(r, q))), rest) == Found(r, pubs, q, rest)
    decreases |rest|
  {
    hide Build, After, NodeAt, HasNode;
    if rest != [] {
      assert rest == [rest[0]] + rest[1..];
      LookupStep(n, pubs, q, rest[0], rest[1..]);
      if Under(pubs, q + [rest[0]]) { LookupFrom(n, pubs, q + [rest[0]], rest[1..]); }
    }
  }

  /** Every lookup in gather(), of any path and without any condition on keys. */
  lemma GatherWithClashes(n: Node, pubs: seq<Pub>, path: seq<string>)
    requires Blank(n) && (forall p | p in pubs :: HasNode(n, p.path))
    ensures var r := After(n, pubs); Fetch(Dict(Build(r)), path) == Found(r, pubs, [], path)
  {
    var r := After(n, pubs);
    assert HasNode(n, []) && HasNode(r, []) && NodeAt(r, []) == r;
    if pubs != [] {
      assert pubs[0] in pubs && [] <= pubs[0].path;
      LookupFrom(n, pubs, [], path);
    } else {
      RendersExactly(n, pubs, []);
      assert r == n && Build(n) == map[];
      if path != [] { assert !Under(pubs, [] + [path[0]]); }
    }
  }

  /** At a node at or below which something was published, the lookup returns the in-order merge of
      what was published there under the key, unless something was published at or below a child
      of that name. Then it returns that child's rendering. */
  lemma GatherAtNode(n: Node, pubs: seq<Pub>, path: seq<string>, key: string)
    requires Blank(n) && (forall p | p in pubs :: HasNode(n, p.path)) && HasNode(n, path) && Under(pubs, path)
    ensures var r := After(n, pubs);
            && (Under(pubs, path + [key]) ==> HasNode(r, path + [key]))
            && Fetch(Dict(Build(r)), path + [key]) ==
               if Under(pubs, path + [key]) then Some(Dict(Build(NodeAt(r, path + [key]))))
               else Published(pubs, path, key)
  {
    hide Build, After, NodeAt, HasNode;
    var r := After(n, pubs);
    RendersExactly(n, pubs, path);
    FetchThrough(r, path, [key]);
    LookupStep(n, pubs, path, key, []);
    assert [key] + [] == [key];
  }

  /** Where nothing was published at or below a node but something at or below its parent q, every
      lookup through the node's name c is a lookup in what was published at q under that name:
      it succeeds, although nothing was published there, exactly when that value has the path. */
  lemma GatherThroughSilentNode(n: Node, pubs: seq<Pub>, q: seq<string>, c: string, rest: seq<string>)
    requires Blank(n) && (forall p | p in pubs :: HasNode(n, p.path)) && HasNode(n, q)
    requires Under(pubs, q) && !Under(pubs, q + [c])
    ensures Fetch(Dict(Build(After(n, pubs))), q + ([c] + rest)) ==
            match Published(pubs, q, c)
            case Some(j) => Fetch(j, rest)
            case None => None
  {
    hide Build, After, NodeAt, HasNode;
    RendersExactly(n, pubs, q);
    FetchThrough(After(n, pubs), q, [c] + rest);
    LookupStep(n, pubs, q, c, rest);
  }

  /** Such a false find: a value published at the root under the name of a child with nothing in it
      is found at the child, key by key. */
  lemma FalseFind(n: Node, c: string, key: string, v: Json)
    requires Blank(n) && c in n.children
    ensures var pubs := [Pub([], c, map[key := v])];
            && HasNode(n, [c]) && Published(pubs, [c], key) == None
            && Fetch(Dict(Build(After(n, pubs))), [c] + [key]) == Some(v)
  {
    var p := Pub([], c, map[key := v]);
    var pubs := [p];
    assert [c][1..] == [] && [key][1..] == [];
    assert p in pubs && HasNode(n, []) && pubs[..0] == [];
    assert Merged(Dict(map[]), Dict(p.value)).entries == p.value;
    assert Published(pubs, [], c) == Some(Dict(p.value));
    assert [] + ([c] + [key]) == [c] + [key] && [] + [c] == [c];
    GatherThroughSilentNode(n, pubs, [], c, [key]);
  }

  lemma ChildNode(n: Node, path: seq<string>, key: string)
    requires HasNode(n, path)
    ensures HasNode(n, path + [key]) <==> key in NodeAt(n, path).children
    ensures HasNode(n, path + [key]) ==> NodeAt(n, path + [key]) == NodeAt(n, path).children[key]
  {
    NodeBelow(n, path, [key]);
    assert [key][1..] == [];
  }

  /** A publication under the name of a child is lost as soon as the child renders to something. */
  lemma ClashHides(n: Node, key: string, value: map<string, Json>)
    requires key in n.children && Build(n.children[key]) != map[]
    ensures Fetch(Dict(Build(PublishHere(n, key, value))), [key]) == Some(Dict(Build(n.children[key])))
  {
    BuildShows(PublishHere(n, key, value), key);
  }

  // ---------- The loops ----------

  lemma EmptyOrNot<T>(s: set<T>)
    ensures s == {} || exists x :: x in s
  {
    if !exists x :: x in s { assert s == {}; }
  }

  /** The loop of deep_merge over the items of src, in whatever order they come. */
  method DeepMerge(dst: map<string, Json>, src: map<string, Json>) returns (r: map<string, Json>)
    ensures Dict(r) == Merged(Dict(dst), Dict(src))
    decreases Dict(src)
  {
    r := dst;
    var todo := src.Keys;
    while todo != {}
      invariant todo <= src.Keys
      invariant r.Keys == dst.Keys + (src.Keys - todo)
      invariant forall k | k in dst.Keys && (k !in src.Keys || k in todo) :: r[k] == dst[k]
      invariant forall k | k in src.Keys - todo ::
                  r[k] == if k in dst then Merged(dst[k], src[k]) else src[k]
      decreases todo
    {
      EmptyOrNot(todo);
      var k :| k in todo;
      var v := src[k];
      if k in r && r[k].Dict? && v.Dict? {
        var inner := DeepMerge(r[k].entries, v.entries);
        r := r[k := Dict(inner)];
      } else {
        r := r[k := v];
      }
      todo := todo - {k};
    }
    assert r == Merged(Dict(dst), Dict(src)).entries;
  }

  method FetchDictDeep(d: map<string, Json>, keys: seq<string>) returns (r: Option<Json>)
    ensures r == Fetch(Dict(d), keys)
  {
    var current := Dict(d);
    var i := 0;
    while i < |keys|
      invariant 0 <= i <= |keys| && Fetch(current, keys[i..]) == Fetch(Dict(d), keys)
    {
      if !current.Dict? || keys[i] !in current.entries { return None; }
      assert keys[i..][1..] == keys[i + 1..];
      current := current.entries[keys[i]];
      i := i + 1;
    }
    return Some(current);
  }
}
