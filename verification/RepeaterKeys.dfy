/**
 The identity of a node in the `repeaters` table. Sources disagree on how much of a public key they
 send, so a lookup tolerates differing lengths and keeps the longest key it has seen. Everything here
 turns on one property of the table: no stored key of eight or more hex characters is a prefix of
 another one.
 */
module RepeaterKeys {
  import opened Wrappers
  import opened Seqs
  import Text

  const MIN_PREFIX_MATCH := 8
  const MIN_KEY_HEX := 2
  const MAX_KEY_HEX := 64
  const NODE_KEY_HEX := 12
  const MAX_REPEATERS := 500

  predicate IsHex(s: string)
  {
    forall i :: 0 <= i < |s| ==> '0' <= s[i] <= '9' || 'a' <= s[i] <= 'f'
  }

  predicate IsKey(s: string)
  {
    MIN_KEY_HEX <= |s| <= MAX_KEY_HEX && IsHex(s)
  }

  /** `key_prefix`: the key in the form in which it may be kept, or "" for anything else. */
  function KeyPrefix(raw: string): (k: string)
    ensures k == "" || IsKey(k)
  {
    var p := Text.Strip(Text.Lower(raw));
    if IsKey(p) then p else ""
  }

  /** `node_key`: the key in the one length a row should have, or "" for anything else. */
  function NodeKey(raw: string): (n: string)
    ensures |n| <= NODE_KEY_HEX
  {
    var k := KeyPrefix(raw);
    if |k| > NODE_KEY_HEX then k[..NODE_KEY_HEX] else k
  }

  lemma LowerHex(s: string)
    requires IsHex(s)
    ensures Text.Lower(s) == s
  {
  }

  /** A key is its own clean form, and a node key its own node key. */
  lemma KeyKept(k: string)
    requires IsKey(k)
    ensures KeyPrefix(k) == k && NodeKey(k) == if |k| > NODE_KEY_HEX then k[..NODE_KEY_HEX] else k
  {
    LowerHex(k);
    assert Text.TrimLeft(k) == k && Text.TrimRight(k) == k;
  }

  lemma NodeKeyIsKey(raw: string)
    requires NodeKey(raw) != ""
    ensures IsKey(NodeKey(raw)) && NodeKey(NodeKey(raw)) == NodeKey(raw)
  {
    KeyKept(NodeKey(raw));
  }

  datatype Row = Row(id: nat, slug: string, key: string, name: string, guest: bool, public: bool)

  /** The name the contacts have for the first six characters of a key; "" for none. */
  type Contacts = string -> string

  function Keys(rows: seq<Row>): (ks: set<string>)
  {
    set r | r in rows :: r.key
  }

  function Slugs(rows: seq<Row>): (ss: set<string>)
  {
    set r | r in rows :: r.slug
  }

  /** No key of eight or more characters is a prefix of another key. */
  predicate Antichain(ks: set<string>)
  {
    forall a, b :: a in ks && b in ks && |a| >= MIN_PREFIX_MATCH && a <= b ==> a == b
  }

  /** The UNIQUE columns and the primary key. */
  predicate Unique(rows: seq<Row>)
  {
    forall i, j :: 0 <= i < j < |rows| ==>
      rows[i].id != rows[j].id && rows[i].slug != rows[j].slug && rows[i].key != rows[j].key
  }

  predicate Sound(rows: seq<Row>)
  {
    Unique(rows) && Antichain(Keys(rows)) && forall r :: r in rows ==> IsKey(r.key)
  }

  // ----------------------------------------------------------------- lookups

  /** How a stored key can answer to an incoming one, in the order in which the lookup tries. */
  datatype Kind = Exact | Shorter | Longer

  predicate Fits(kind: Kind, stored: string, key: string)
  {
    match kind
    case Exact => stored == key
    case Shorter => |key| >= MIN_PREFIX_MATCH && |stored| >= MIN_PREFIX_MATCH && stored <= key
    case Longer => |key| >= MIN_PREFIX_MATCH && key <= stored
  }

  predicate Known(rows: seq<Row>, kind: Kind, key: string)
  {
    exists i :: 0 <= i < |rows| && Fits(kind, rows[i].key, key)
  }

  /** Row `i` is one the query for this kind may return: it fits, and no row that fits has a longer key. */
  predicate Best(rows: seq<Row>, kind: Kind, key: string, i: nat)
  {
    && i < |rows|
    && Fits(kind, rows[i].key, key)
    && forall j :: 0 <= j < |rows| && Fits(kind, rows[j].key, key) ==> |rows[j].key| <= |rows[i].key|
  }

  lemma {:induction false} BestExists(rows: seq<Row>, kind: Kind, key: string)
    requires Known(rows, kind, key)
    ensures exists i: nat :: Best(rows, kind, key, i)
  {
    var m := |rows| - 1;
    var init := rows[..m];
    if Known(init, kind, key) {
      BestExists(init, kind, key);
      var i: nat :| Best(init, kind, key, i);
      assert forall j :: 0 <= j < m ==> rows[j] == init[j];
      if Fits(kind, rows[m].key, key) && |rows[m].key| > |rows[i].key| {
        assert Best(rows, kind, key, m);
      } else {
        assert Best(rows, kind, key, i);
      }
    } else {
      assert forall j :: 0 <= j < m ==> !Fits(kind, init[j].key, key);
      assert Best(rows, kind, key, m);
    }
  }

  /** Row `i` is an answer to the incoming key: of the first kind for which there is any. */
  predicate Answers(rows: seq<Row>, key: string, i: nat)
  {
    if Known(rows, Exact, key) then Best(rows, Exact, key, i)
    else if Known(rows, Shorter, key) then Best(rows, Shorter, key, i)
    else Best(rows, Longer, key, i)
  }

  /** Whether a stored key names the same node as an incoming one, as far as keys can tell. */
  predicate SameNode(stored: string, key: string)
  {
    stored == key || (|key| >= MIN_PREFIX_MATCH && |stored| >= MIN_PREFIX_MATCH && (stored <= key || key <= stored))
  }

  /** The stored key becomes the longest one seen. */
  function Grown(rows: seq<Row>, i: nat, key: string): (out: seq<Row>)
    requires i < |rows|
  {
    if |key| > |rows[i].key| then rows[i := rows[i].(key := key)] else rows
  }

  /** In an antichain at most one stored key of eight or more characters shortens an incoming key. */
  lemma ShorteningUnique(ks: set<string>, a: string, b: string, key: string)
    requires Antichain(ks) && a in ks && b in ks
    requires |a| >= MIN_PREFIX_MATCH && |b| >= MIN_PREFIX_MATCH && a <= key && b <= key
    ensures a == b
  {
    if |a| <= |b| {
      assert a == b[..|a|];
    }
  }

  /** A lookup finds a row exactly when some stored key names the same node. */
  lemma FoundIffSameNode(rows: seq<Row>, key: string)
    ensures (exists i: nat :: Answers(rows, key, i)) <==> exists r :: r in rows && SameNode(r.key, key)
  {
    if r :| r in rows && SameNode(r.key, key) {
      var i: nat :| i < |rows| && rows[i] == r;
      var kind := if Known(rows, Exact, key) then Exact else if Known(rows, Shorter, key) then Shorter else Longer;
      assert Fits(Exact, rows[i].key, key) || Fits(Shorter, rows[i].key, key) || Fits(Longer, rows[i].key, key);
      BestExists(rows, kind, key);
      var k: nat :| Best(rows, kind, key, k);
      assert Answers(rows, key, k);
    }
    if i: nat :| Answers(rows, key, i) {
      assert rows[i] in rows && SameNode(rows[i].key, key);
    }
  }

  /** Two different rows can only be confused by a key that both of them properly extend. */
  lemma AnswerUnique(rows: seq<Row>, key: string, i: nat, j: nat)
    requires Sound(rows) && Answers(rows, key, i) && Answers(rows, key, j) && i != j
    ensures key < rows[i].key && key < rows[j].key && |rows[i].key| == |rows[j].key|
  {
    assert rows[i].key in Keys(rows) && rows[j].key in Keys(rows);
    if Known(rows, Shorter, key) {
      ShorteningUnique(Keys(rows), rows[i].key, rows[j].key, key);
    }
  }

  /** Keeping the longest key seen leaves the table sound. */
  lemma GrownSound(rows: seq<Row>, key: string, i: nat)
    requires Sound(rows) && IsKey(key) && Answers(rows, key, i)
    ensures Sound(Grown(rows, i, key))
    ensures SameNode(Grown(rows, i, key)[i].key, key) && key <= Grown(rows, i, key)[i].key
    ensures |Grown(rows, i, key)| == |rows|
  {
    var out := Grown(rows, i, key);
    if |key| > |rows[i].key| {
      assert !Known(rows, Exact, key) && Known(rows, Shorter, key);
      forall r | r in rows ensures r.key != key {
        var j :| 0 <= j < |rows| && rows[j] == r;
        assert !Fits(Exact, rows[j].key, key);
      }
      GrownAntichain(Keys(rows), rows[i].key, key);
      forall r | r in out ensures r.key in Keys(rows) - {rows[i].key} + {key} && IsKey(r.key) {
        var j :| 0 <= j < |out| && out[j] == r;
        assert rows[j] in rows;
      }
      KeysSubset(out, Keys(rows) - {rows[i].key} + {key});
    }
  }

  lemma GrownAntichain(ks: set<string>, old_: string, new_: string)
    requires Antichain(ks) && old_ in ks && |old_| >= MIN_PREFIX_MATCH && old_ <= new_
    ensures Antichain(ks - {old_} + {new_})
  {
    forall a, b | a in ks - {old_} + {new_} && b in ks - {old_} + {new_} && |a| >= MIN_PREFIX_MATCH && a <= b
      ensures a == b
    {
      if b == new_ && a != new_ {
        ShorteningUnique(ks, a, old_, new_);
      }
    }
  }

  /** A key that no stored key answers to can be added without spoiling the antichain. */
  lemma FreshAntichain(rows: seq<Row>, key: string)
    requires Sound(rows)
    requires !exists r :: r in rows && SameNode(r.key, key)
    ensures Antichain(Keys(rows) + {key})
    ensures key !in Keys(rows)
  {
    forall k | k in Keys(rows) ensures !SameNode(k, key) {
      var r :| r in rows && r.key == k;
    }
  }

  /** Once a node is found under a key, every longer form of the key now stored finds the same row. */
  lemma LongerFormSameRow(rows: seq<Row>, key: string, i: nat, longer: string, j: nat)
    requires Sound(rows) && IsKey(key) && |key| >= MIN_PREFIX_MATCH && Answers(rows, key, i)
    requires Grown(rows, i, key)[i].key <= longer
    requires Answers(Grown(rows, i, key), longer, j)
    ensures j == i
  {
    GrownSound(rows, key, i);
    var out := Grown(rows, i, key);
    assert Fits(Shorter, out[i].key, longer);
    assert Known(out, Shorter, longer);
    assert out[i].key in Keys(out) && out[j].key in Keys(out);
    if |out[j].key| >= MIN_PREFIX_MATCH && out[j].key <= longer {
      ShorteningUnique(Keys(out), out[i].key, out[j].key, longer);
    }
  }

  // -------------------------------------------------------------- shortening

  /** Whether a node key is in a table, with every key cut to the length a node key has. */
  ghost predicate HasNode(rows: seq<Row>, node: string)
  {
    exists i :: 0 <= i < |rows| && NodeKey(rows[i].key) == node
  }

  /** Whether the figures of a node were fetched as a guest. */
  ghost predicate HasGuest(rows: seq<Row>, node: string)
  {
    exists i :: 0 <= i < |rows| && rows[i].guest && NodeKey(rows[i].key) == node
  }

  function Without(rows: seq<Row>, i: nat): (out: seq<Row>)
    requires i < |rows|
  {
    rows[..i] + rows[i + 1..]
  }

  function IndexOfKey(rows: seq<Row>, key: string): (i: nat)
    ensures i <= |rows|
    ensures i < |rows| ==> rows[i].key == key
    ensures i == |rows| ==> forall r :: r in rows ==> r.key != key
  {
    if rows == [] then 0
    else
      assert rows == [rows[0]] + rows[1..];
      if rows[0].key == key then 0 else 1 + IndexOfKey(rows[1..], key)
  }

  /** The name is the key itself, in its long or its short form. */
  predicate NamedByKey(row: Row)
  {
    Text.Lower(row.name) == Text.Lower(row.key) || Text.Lower(row.name) == NodeKey(row.key)
  }

  /** The name of a row once its key is short: one that was only the key gives way to the contact's. */
  function NewName(row: Row, contacts: Contacts): (name: string)
  {
    var short := NodeKey(row.key);
    var found := Text.Strip(contacts(if |short| > 6 then short[..6] else short));
    if NamedByKey(row) && found != "" then (if |found| > 64 then found[..64] else found) else row.name
  }

  /** The row under its short key: hidden again if its figures were fetched as a guest. */
  function Shortened(row: Row, contacts: Contacts): (out: Row)
  {
    row.(key := NodeKey(row.key), name := NewName(row, contacts), public := row.public && !row.guest)
  }

  /**
   Shortening the row at `i`, which is longer than a node key: it gives way to a row that has the short key
   already, or takes it over; what is no key stays as it is.
   */
  function ShortenAt(rows: seq<Row>, i: nat, contacts: Contacts): (out: seq<Row>)
    requires i < |rows| && |rows[i].key| > NODE_KEY_HEX
  {
    var row := rows[i];
    var short := NodeKey(row.key);
    if short == "" then rows
    else
      var j := IndexOfKey(rows, short);
      if j == |rows| then rows[i := Shortened(row, contacts)]
      else Without(if row.guest then rows[j := rows[j].(guest := true)] else rows, i)
  }

  /** The same nodes are in both tables, and the same of them as guests. */
  ghost predicate SameNodes(a: seq<Row>, b: seq<Row>)
  {
    forall node: string :: (HasNode(a, node) <==> HasNode(b, node)) && (HasGuest(a, node) <==> HasGuest(b, node))
  }

  lemma WithoutMembers(rows: seq<Row>, i: nat)
    requires i < |rows| && Unique(rows)
    ensures Unique(Without(rows, i))
    ensures forall r :: r in Without(rows, i) <==> r in rows && r != rows[i]
  {
    var out := Without(rows, i);
    forall r | r in rows && r != rows[i] ensures r in out {
      var k :| 0 <= k < |rows| && rows[k] == r;
      assert out[if k < i then k else k - 1] == r;
    }
  }

  predicate AllKeys(rows: seq<Row>)
  {
    forall r :: r in rows ==> IsKey(r.key)
  }

  /** Changing a row in place, without changing its node key or its guest mark. */
  lemma InPlaceSame(rows: seq<Row>, i: nat, row: Row)
    requires i < |rows| && NodeKey(row.key) == NodeKey(rows[i].key) && row.guest == rows[i].guest
    ensures SameNodes(rows, rows[i := row])
  {
    forall node: string
      ensures HasNode(rows, node) <==> HasNode(rows[i := row], node)
      ensures HasGuest(rows, node) <==> HasGuest(rows[i := row], node)
    {
      InPlaceThere(rows, i, row, node);
      InPlaceThere(rows[i := row], i, rows[i], node);
      assert rows[i := row][i := rows[i]] == rows;
    }
  }

  lemma InPlaceThere(rows: seq<Row>, i: nat, row: Row, node: string)
    requires i < |rows| && NodeKey(row.key) == NodeKey(rows[i].key) && row.guest == rows[i].guest
    ensures HasNode(rows, node) ==> HasNode(rows[i := row], node)
    ensures HasGuest(rows, node) ==> HasGuest(rows[i := row], node)
  {
    var out := rows[i := row];
    if k :| 0 <= k < |rows| && NodeKey(rows[k].key) == node {
      assert NodeKey(out[k].key) == node;
    }
    if k :| 0 <= k < |rows| && rows[k].guest && NodeKey(rows[k].key) == node {
      assert out[k].guest && NodeKey(out[k].key) == node;
    }
  }

  /** A guest mark moves over to another row of the same node. */
  lemma MarkSame(rows: seq<Row>, i: nat, j: nat)
    requires i < |rows| && j < |rows| && NodeKey(rows[i].key) == NodeKey(rows[j].key) && rows[i].guest
    ensures SameNodes(rows, rows[j := rows[j].(guest := true)])
  {
    var out := rows[j := rows[j].(guest := true)];
    forall node: string
      ensures HasNode(rows, node) <==> HasNode(out, node)
      ensures HasGuest(rows, node) <==> HasGuest(out, node)
    {
      MarkNodes(rows, j, node);
      MarkGuests(rows, i, j, node);
    }
  }

  lemma MarkNodes(rows: seq<Row>, j: nat, node: string)
    requires j < |rows|
    ensures HasNode(rows, node) <==> HasNode(rows[j := rows[j].(guest := true)], node)
  {
    var out := rows[j := rows[j].(guest := true)];
    assert forall k :: 0 <= k < |rows| ==> out[k].key == rows[k].key;
  }

  lemma MarkGuests(rows: seq<Row>, i: nat, j: nat, node: string)
    requires i < |rows| && j < |rows| && NodeKey(rows[i].key) == NodeKey(rows[j].key) && rows[i].guest
    ensures HasGuest(rows, node) <==> HasGuest(rows[j := rows[j].(guest := true)], node)
  {
    var out := rows[j := rows[j].(guest := true)];
    if k :| 0 <= k < |rows| && rows[k].guest && NodeKey(rows[k].key) == node {
      assert out[k].guest && out[k].key == rows[k].key;
    }
    if k :| 0 <= k < |out| && out[k].guest && NodeKey(out[k].key) == node {
      var from := if k == j then i else k;
      assert rows[from].guest && NodeKey(rows[from].key) == node;
    }
  }

  /** A row goes that another row of the same node covers. */
  lemma CoveredSame(rows: seq<Row>, i: nat, j: nat)
    requires i < |rows| && j < |rows| && i != j
    requires NodeKey(rows[i].key) == NodeKey(rows[j].key) && (rows[i].guest ==> rows[j].guest)
    ensures SameNodes(rows, Without(rows, i))
  {
    forall node: string
      ensures HasNode(rows, node) <==> HasNode(Without(rows, i), node)
      ensures HasGuest(rows, node) <==> HasGuest(Without(rows, i), node)
    {
      CoveredThere(rows, i, j, node);
      CoveredBack(rows, i, node);
    }
  }

  lemma CoveredThere(rows: seq<Row>, i: nat, j: nat, node: string)
    requires i < |rows| && j < |rows| && i != j
    requires NodeKey(rows[i].key) == NodeKey(rows[j].key) && (rows[i].guest ==> rows[j].guest)
    ensures HasNode(rows, node) ==> HasNode(Without(rows, i), node)
    ensures HasGuest(rows, node) ==> HasGuest(Without(rows, i), node)
  {
    if k :| 0 <= k < |rows| && NodeKey(rows[k].key) == node {
      CoveredAt(rows, i, j, k);
    }
    if k :| 0 <= k < |rows| && rows[k].guest && NodeKey(rows[k].key) == node {
      CoveredAt(rows, i, j, k);
    }
  }

  lemma CoveredBack(rows: seq<Row>, i: nat, node: string)
    requires i < |rows|
    ensures HasNode(Without(rows, i), node) ==> HasNode(rows, node)
    ensures HasGuest(Without(rows, i), node) ==> HasGuest(rows, node)
  {
    var out := Without(rows, i);
    assert forall m :: 0 <= m < |out| ==> out[m] == (if m < i then rows[m] else rows[m + 1]);
  }

  /** Where to find the cover of row `k` once row `i` is gone. */
  lemma CoveredAt(rows: seq<Row>, i: nat, j: nat, k: nat)
    requires i < |rows| && j < |rows| && i != j && k < |rows|
    ensures var c := if k == i then j else k;
            var m := if c < i then c else c - 1;
            m < |Without(rows, i)| && Without(rows, i)[m] == rows[c]
  {
  }

  lemma ShortenAtTakesOver(rows: seq<Row>, i: nat, contacts: Contacts)
    requires i < |rows| && Unique(rows) && |rows[i].key| > NODE_KEY_HEX && NodeKey(rows[i].key) != ""
    requires IndexOfKey(rows, NodeKey(rows[i].key)) == |rows|
    ensures Unique(ShortenAt(rows, i, contacts)) && SameNodes(rows, ShortenAt(rows, i, contacts))
  {
    var row := ShortenAt(rows, i, contacts)[i];
    NodeKeyIsKey(rows[i].key);
    InPlaceSame(rows, i, row);
    ReplacedUnique(rows, i, row);
  }

  lemma ReplacedUnique(rows: seq<Row>, i: nat, row: Row)
    requires i < |rows| && Unique(rows) && row.id == rows[i].id && row.slug == rows[i].slug
    requires row.key == rows[i].key || forall r :: r in rows ==> r.key != row.key
    ensures Unique(rows[i := row])
  {
    forall k | 0 <= k < |rows| && k != i ensures rows[k].key != row.key {
      assert rows[k] in rows;
    }
  }

  lemma ShortenAtGivesWay(rows: seq<Row>, i: nat, contacts: Contacts)
    requires i < |rows| && Unique(rows) && |rows[i].key| > NODE_KEY_HEX && NodeKey(rows[i].key) != ""
    requires IndexOfKey(rows, NodeKey(rows[i].key)) < |rows|
    ensures Unique(ShortenAt(rows, i, contacts)) && SameNodes(rows, ShortenAt(rows, i, contacts))
  {
    var j := IndexOfKey(rows, NodeKey(rows[i].key));
    NodeKeyIsKey(rows[i].key);
    var mid := if rows[i].guest then rows[j := rows[j].(guest := true)] else rows;
    if rows[i].guest {
      MarkSame(rows, i, j);
    }
    ReplacedUnique(rows, j, rows[j].(guest := rows[j].guest || rows[i].guest));
    assert mid == rows[j := rows[j].(guest := rows[j].guest || rows[i].guest)];
    CoveredSame(mid, i, j);
    WithoutMembers(mid, i);
  }

  /** What became of a row: nothing public that was hidden, no name lost but a key's, and a long key untouched. */
  predicate Descends(q: Row, r: Row)
  {
    && q.id == r.id && (q.public ==> r.public) && (q.name == r.name || NamedByKey(r))
    && (if |q.key| > NODE_KEY_HEX then q.key == r.key && q.name == r.name
        else q.key == r.key || q.key == NodeKey(r.key))
  }

  predicate DescendsFrom(was: seq<Row>, q: Row)
  {
    exists m :: 0 <= m < |was| && Descends(q, was[m])
  }

  /** Every row comes from one that was there. */
  predicate AllDescend(was: seq<Row>, rows: seq<Row>)
  {
    forall k :: 0 <= k < |rows| ==> DescendsFrom(was, rows[k])
  }

  lemma DescendsOn(was: seq<Row>, q: Row, p: Row)
    requires DescendsFrom(was, q)
    requires p == q.(guest := p.guest) || p == q.(key := p.key, name := p.name, public := p.public)
    requires p.key == q.key || (|q.key| > NODE_KEY_HEX && p.key == NodeKey(q.key))
    requires p.name == q.name || (|q.key| > NODE_KEY_HEX && p.key != q.key && NamedByKey(q))
    requires p.public ==> q.public
    ensures DescendsFrom(was, p)
  {
    var m :| 0 <= m < |was| && Descends(q, was[m]);
    assert Descends(p, was[m]);
  }

  lemma ShortenAtDescends(was: seq<Row>, rows: seq<Row>, i: nat, contacts: Contacts)
    requires AllDescend(was, rows) && i < |rows| && |rows[i].key| > NODE_KEY_HEX
    ensures AllDescend(was, ShortenAt(rows, i, contacts))
  {
    var out := ShortenAt(rows, i, contacts);
    forall k | 0 <= k < |out|
      ensures DescendsFrom(was, out[k])
    {
      DescendsOn(was, rows[if |out| == |rows| || k < i then k else k + 1], out[k]);
    }
  }

  /** What the repair keeps of the table it started from. */
  ghost predicate Repaired(was: seq<Row>, rows: seq<Row>)
  {
    Unique(rows) && SameNodes(was, rows) && AllDescend(was, rows) && |rows| <= |was|
  }

  lemma ShortenAtRepairs(was: seq<Row>, rows: seq<Row>, i: nat, contacts: Contacts)
    requires Repaired(was, rows) && i < |rows| && |rows[i].key| > NODE_KEY_HEX
    ensures Repaired(was, ShortenAt(rows, i, contacts))
  {
    ShortenAtDescends(was, rows, i, contacts);
    if NodeKey(rows[i].key) != "" {
      if IndexOfKey(rows, NodeKey(rows[i].key)) == |rows| {
        ShortenAtTakesOver(rows, i, contacts);
      } else {
        ShortenAtGivesWay(rows, i, contacts);
      }
    }
  }

  /** The node keys of a table. */
  function NodeKeys(rows: seq<Row>): (ks: set<string>)
  {
    set r | r in rows :: NodeKey(r.key)
  }

  /** Where every key is one, the keys after the repair are the node keys from before. */
  lemma RepairedKeys(was: seq<Row>, rows: seq<Row>)
    requires AllKeys(was) && Repaired(was, rows) && ShortTo(rows, |rows|)
    ensures AllKeys(rows) && Keys(rows) == NodeKeys(was)
  {
    forall k | 0 <= k < |rows|
      ensures IsKey(rows[k].key) && NodeKey(rows[k].key) == rows[k].key
    {
      var m :| 0 <= m < |was| && Descends(rows[k], was[m]);
      assert was[m] in was && Short(rows[k]);
      KeyKept(was[m].key);
      KeyKept(rows[k].key);
    }
    forall n: string
      ensures n in Keys(rows) <==> n in NodeKeys(was)
    {
      HasNodeIn(was, n);
      HasNodeIn(rows, n);
    }
  }

  lemma HasNodeIn(rows: seq<Row>, node: string)
    ensures HasNode(rows, node) <==> node in NodeKeys(rows)
  {
    if i :| 0 <= i < |rows| && NodeKey(rows[i].key) == node {
      assert rows[i] in rows;
    }
  }

  lemma CutApart(ks: set<string>, x: string, y: string)
    requires Antichain(ks) && x in ks && y in ks && IsKey(x) && IsKey(y)
    requires |NodeKey(x)| >= MIN_PREFIX_MATCH && NodeKey(x) <= NodeKey(y)
    ensures NodeKey(x) == NodeKey(y)
  {
    KeyKept(x);
    KeyKept(y);
    if |x| <= NODE_KEY_HEX {
      assert x <= y;
    }
  }

  /** Cutting every key of an antichain to the length of a node key leaves an antichain. */
  lemma ShortAntichain(rows: seq<Row>)
    requires AllKeys(rows) && Antichain(Keys(rows))
    ensures Antichain(NodeKeys(rows))
  {
    forall q, r | q in rows && r in rows && |NodeKey(q.key)| >= MIN_PREFIX_MATCH && NodeKey(q.key) <= NodeKey(r.key)
      ensures NodeKey(q.key) == NodeKey(r.key)
    {
      CutApart(Keys(rows), q.key, r.key);
    }
  }

  /** Nothing is left to shorten in this row. */
  predicate Short(r: Row)
  {
    |r.key| <= NODE_KEY_HEX || NodeKey(r.key) == ""
  }

  predicate ShortTo(rows: seq<Row>, i: nat)
    requires i <= |rows|
  {
    forall j :: 0 <= j < i ==> Short(rows[j])
  }

  /** A step of the repair shortens the row or removes it, and leaves the rows before it to themselves. */
  lemma RepairStep(was: seq<Row>, rows: seq<Row>, i: nat, contacts: Contacts)
    requires Repaired(was, rows) && i < |rows| && ShortTo(rows, i) && !Short(rows[i])
    ensures var out := ShortenAt(rows, i, contacts);
            Repaired(was, out) && i <= |out| && ShortTo(out, i)
            && (|out| < |rows| || (|out| == |rows| && Short(out[i])))
  {
    ShortenAtRepairs(was, rows, i, contacts);
    var out := ShortenAt(rows, i, contacts);
    forall j | 0 <= j < i
      ensures Short(out[j])
    {
      assert Short(rows[j]) && out[j].key == rows[j].key;
    }
  }

  // ------------------------------------------------------------------- slugs

  /** The `i`-th slug tried for a base: the base itself, then `base-2`, `base-3` and so on. */
  function Candidate(base: string, i: nat): (s: string)
    requires i >= 1
  {
    if i == 1 then base else base + "-" + Text.Decimal(i)
  }

  lemma CandidatesDiffer(base: string, i: nat, j: nat)
    requires 1 <= i < j
    ensures Candidate(base, i) != Candidate(base, j)
  {
    if Candidate(base, i) == Candidate(base, j) && i > 1 {
      Split(base + "-", Text.Decimal(i));
      Split(base + "-", Text.Decimal(j));
      Text.DecimalInjective(i, j);
    }
  }

  // ------------------------------------------------------------------- table

  datatype Refusal = NotAKey | TableFull

  class Repeaters {
    var rows: seq<Row>

    /** What every reachable table is: unique, within its limit, and with an antichain of keys. */
    ghost predicate Valid()
      reads this
    {
      Sound(rows) && |rows| <= MAX_REPEATERS
    }

    constructor ()
      ensures Valid() && rows == []
    {
      rows := [];
    }

    /** One query of the lookup: a longest row that fits, whichever that is when there are several. */
    method Query(kind: Kind, key: string) returns (hit: Option<nat>)
      ensures hit.Some? ==> Best(rows, kind, key, hit.value)
      ensures hit.None? ==> !Known(rows, kind, key)
    {
      hit := None;
      if exists i :: 0 <= i < |rows| && Fits(kind, rows[i].key, key) {
        BestExists(rows, kind, key);
        var i :| 0 <= i < |rows| && Best(rows, kind, key, i);
        hit := Some(i);
      }
    }

    /** `_find_by_prefix`: the exact key, then the longest shortening of it, then the longest extension. */
    method FindByPrefix(key: string) returns (hit: Option<nat>)
      requires Valid() && IsKey(key)
      modifies this
      ensures Valid()
      ensures hit.Some? <==> exists r :: r in old(rows) && SameNode(r.key, key)
      ensures hit.Some? ==> Answers(old(rows), key, hit.value) && rows == Grown(old(rows), hit.value, key)
      ensures hit.None? ==> rows == old(rows)
    {
      FoundIffSameNode(rows, key);
      hit := Query(Exact, key);
      if hit.Some? || |key| < MIN_PREFIX_MATCH {
        return;
      }
      hit := Query(Shorter, key);
      if hit.Some? {
        GrownSound(rows, key, hit.value);
        if |key| > |rows[hit.value].key| {
          rows := rows[hit.value := rows[hit.value].(key := key)];
        }
        return;
      }
      hit := Query(Longer, key);
    }

    /** The first slug of the series that no row has; there is one, because no slug of the series repeats. */
    method FreeSlug(base: string) returns (slug: string)
      ensures slug !in Slugs(rows)
      ensures exists i: nat :: 1 <= i && slug == Candidate(base, i)
                            && forall j: nat :: 1 <= j < i ==> Candidate(base, j) in Slugs(rows)
    {
      slug := base;
      var i := 1;
      ghost var tried := {};
      while slug in Slugs(rows)
        invariant 1 <= i && slug == Candidate(base, i)
        invariant tried <= Slugs(rows)
        invariant forall s :: s in tried <==> exists j: nat :: 1 <= j < i && s == Candidate(base, j)
        decreases Slugs(rows) - tried
      {
        forall j: nat | 1 <= j < i ensures Candidate(base, j) != slug {
          CandidatesDiffer(base, j, i);
        }
        tried := tried + {slug};
        i := i + 1;
        slug := base + "-" + Text.Decimal(i);
      }
    }

    /**
     `_shorten_long_node_keys`, the repair at start-up, on whatever an older version left behind: afterwards
     nothing longer than a node key is a key. Where all were keys, their node keys are the keys now.
     */
    method ShortenLongKeys(contacts: Contacts)
      requires Unique(rows)
      modifies this
      ensures Repaired(old(rows), rows)
      ensures ShortTo(rows, |rows|)
      ensures AllKeys(old(rows)) ==> AllKeys(rows) && Keys(rows) == NodeKeys(old(rows))
      ensures old(Valid()) ==> Valid()
    {
      SameRows(rows);
      var i := 0;
      while i < |rows|
        invariant i <= |rows| && Repaired(old(rows), rows) && ShortTo(rows, i)
        decreases |rows| - i, if i < |rows| && !Short(rows[i]) then 1 else 0
      {
        if !Short(rows[i]) {
          RepairStep(old(rows), rows, i, contacts);
          ShortenRow(i, contacts);
        } else {
          i := i + 1;
        }
      }
      RepairedSound(old(rows), rows);
    }

    /** One row with a long key: a row that has the short key already stays and takes over the guest mark. */
    method ShortenRow(i: nat, contacts: Contacts)
      requires i < |rows| && |rows[i].key| > NODE_KEY_HEX
      modifies this
      ensures rows == ShortenAt(old(rows), i, contacts)
    {
      var row := rows[i];
      var short := NodeKey(row.key);
      if short == "" {
        return;
      }
      var j := IndexOfKey(rows, short);
      if j == |rows| {
        rows := rows[i := row.(key := short, name := NewName(row, contacts), public := row.public && !row.guest)];
        return;
      }
      if row.guest {
        rows := rows[j := rows[j].(guest := true)];
      }
      rows := rows[..i] + rows[i + 1..];
    }

    /** Removing a row, as an administrator may. */
    method Delete(id: nat)
      requires Valid()
      modifies this
      ensures Valid()
      ensures forall r :: r in rows <==> r in old(rows) && r.id != id
    {
      if i :| 0 <= i < |rows| && rows[i].id == id {
        WithoutMembers(rows, i);
        ghost var was := rows;
        rows := rows[..i] + rows[i + 1..];
        assert Keys(rows) <= Keys(was);
      }
    }

    /** A row id no row has: one past the highest. */
    function NextId(): (id: nat)
      reads this
      ensures forall r :: r in rows ==> r.id < id
    {
      MaxId(rows) + 1
    }

    /**
     `get_or_create_repeater`: the row the key answers to, which learns the key if it is longer and the
     name if there is a new one; otherwise a new hidden row; otherwise a refusal that changes nothing.
     `slugBase` is the slugified name or key.
     */
    method GetOrCreate(raw: string, name: Option<string>, slugBase: string) returns (r: Result<nat, Refusal>)
      requires Valid()
      modifies this
      ensures Valid()
      ensures r == Failure(NotAKey) <==> KeyPrefix(raw) == ""
      ensures r == Failure(TableFull) <==>
                && KeyPrefix(raw) != "" && |old(rows)| == MAX_REPEATERS
                && !exists q :: q in old(rows) && SameNode(q.key, KeyPrefix(raw))
      ensures r.Failure? ==> rows == old(rows)
      ensures r.Success? && (exists q :: q in old(rows) && SameNode(q.key, KeyPrefix(raw))) ==>
                exists i: nat :: Answers(old(rows), KeyPrefix(raw), i)
                       && rows == Named(Grown(old(rows), i, KeyPrefix(raw)), i, name) && r.value == rows[i].id
      ensures r.Success? && (!exists q :: q in old(rows) && SameNode(q.key, KeyPrefix(raw))) ==>
                && |rows| == |old(rows)| + 1 && rows[..|old(rows)|] == old(rows)
                && (forall q :: q in old(rows) ==> q.id != r.value)
                && var row := rows[|old(rows)|];
                   row.id == r.value && row.key == KeyPrefix(raw) && !row.public && !row.guest
                   && row.name == (if name.Some? && name.value != "" then name.value else row.key)
    {
      var key := KeyPrefix(raw);
      if key == "" {
        return Failure(NotAKey);
      }
      var hit := FindByPrefix(key);
      if hit.Some? {
        var i := hit.value;
        ghost var grown := rows;
        if name.Some? && name.value != "" && name.value != rows[i].name {
          rows := rows[i := rows[i].(name := name.value)];
        }
        NamedSound(grown, i, name);
        return Success(rows[i].id);
      }
      if |rows| >= MAX_REPEATERS {
        return Failure(TableFull);
      }
      var slug := FreeSlug(slugBase);
      var row := Row(NextId(), slug, key, if name.Some? && name.value != "" then name.value else key, false, false);
      FreshRow(rows, row);
      rows := rows + [row];
      return Success(row.id);
    }
  }

  lemma SameRows(rows: seq<Row>)
    ensures SameNodes(rows, rows) && AllDescend(rows, rows)
  {
    forall k | 0 <= k < |rows|
      ensures DescendsFrom(rows, rows[k])
    {
      assert Descends(rows[k], rows[k]);
    }
  }

  lemma RepairedSound(was: seq<Row>, rows: seq<Row>)
    requires Repaired(was, rows) && ShortTo(rows, |rows|)
    ensures AllKeys(was) ==> AllKeys(rows) && Keys(rows) == NodeKeys(was)
    ensures Sound(was) ==> Sound(rows)
  {
    if AllKeys(was) {
      RepairedKeys(was, rows);
    }
    if Sound(was) {
      ShortAntichain(was);
    }
  }

  /** A new name is adopted whenever a source sends one. */
  function Named(rows: seq<Row>, i: nat, name: Option<string>): (out: seq<Row>)
    requires i < |rows|
  {
    if name.Some? && name.value != "" then rows[i := rows[i].(name := name.value)] else rows
  }

  lemma NamedSound(rows: seq<Row>, i: nat, name: Option<string>)
    requires i < |rows| && Sound(rows)
    ensures Sound(Named(rows, i, name))
  {
    var out := Named(rows, i, name);
    forall r | r in out ensures IsKey(r.key) && r.key in Keys(rows) {
      var k :| 0 <= k < |out| && out[k] == r;
      assert rows[k] in rows;
    }
    KeysSubset(out, Keys(rows));
  }

  lemma KeysSubset(rows: seq<Row>, ks: set<string>)
    requires Antichain(ks) && forall r :: r in rows ==> r.key in ks
    ensures Antichain(Keys(rows))
  {
    assert Keys(rows) <= ks;
  }

  function MaxId(rows: seq<Row>): (m: nat)
    ensures forall r :: r in rows ==> r.id <= m
  {
    if rows == [] then 0
    else
      assert rows == [rows[0]] + rows[1..];
      var m := MaxId(rows[1..]);
      if rows[0].id > m then rows[0].id else m
  }

  lemma FreshRow(rows: seq<Row>, row: Row)
    requires Sound(rows) && IsKey(row.key)
    requires !exists r :: r in rows && SameNode(r.key, row.key)
    requires row.slug !in Slugs(rows) && forall r :: r in rows ==> r.id < row.id
    ensures Sound(rows + [row])
  {
    FreshAntichain(rows, row.key);
    assert forall r :: r in rows ==> r.key in Keys(rows);
    KeysSubset(rows + [row], Keys(rows) + {row.key});
  }

}
