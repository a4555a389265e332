/**
 * The node contact list: upserts and queries of src/metrics/store.js
 * (417-424, 664-679, 835-848, 962-976) and the prefix lookup of
 * src/nodes/node-registry.js.
 */
module Nodes {
  import opened Prelude

  datatype Node = Node(name: string, kind: Option<string>, firstHeardAt: int, lastHeardAt: int)

  /** The `nodes` table by public_key_hex. */
  type Table = map<string, Node>

  /** A verified, named advert heard at some time. */
  datatype Hearing = Hearing(key: string, name: string, kind: Option<string>, at: int)

  // ---------------------------------------------------------------- upserts

  /** INSERT ... ON CONFLICT DO UPDATE of everything but first_heard_at. */
  function Upsert(t: Table, h: Hearing): Table {
    t[h.key := if h.key in t then t[h.key].(name := h.name, kind := h.kind, lastHeardAt := h.at)
               else Node(h.name, h.kind, h.at, h.at)]
  }

  function TableOf(hs: seq<Hearing>): Table {
    if hs == [] then map[] else Upsert(TableOf(hs[..|hs| - 1]), hs[|hs| - 1])
  }

  ghost predicate FirstOf(hs: seq<Hearing>, key: string, i: nat) {
    i < |hs| && hs[i].key == key && forall m | 0 <= m < i :: hs[m].key != key
  }

  ghost predicate LatestOf(hs: seq<Hearing>, key: string, j: nat) {
    j < |hs| && hs[j].key == key && forall m | j < m < |hs| :: hs[m].key != key
  }

  /** A key has a row as soon as it was heard. */
  lemma {:induction false} HeardIsStored(hs: seq<Hearing>, key: string)
    ensures key in TableOf(hs) <==> exists m :: 0 <= m < |hs| && hs[m].key == key
  {
    if hs != [] {
      var init, h := hs[..|hs| - 1], hs[|hs| - 1];
      HeardIsStored(init, key);
      if m :| 0 <= m < |init| && init[m].key == key {
        assert hs[m].key == key;
      }
      if m :| 0 <= m < |hs| && hs[m].key == key {
        assert m < |init| ==> init[m] == hs[m];
      }
    }
  }

  /** The row of a key tells when it was first heard, and everything else as it was heard last. */
  lemma {:induction false} RowTellsFirstAndLatest(hs: seq<Hearing>, key: string) returns (i: nat, j: nat)
    requires key in TableOf(hs)
    ensures FirstOf(hs, key, i) && LatestOf(hs, key, j)
    ensures TableOf(hs)[key] == Node(hs[j].name, hs[j].kind, hs[i].at, hs[j].at)
  {
    var n := |hs| - 1;
    if key in TableOf(hs[..n]) {
      i, j := RowTellsFirstAndLatest(hs[..n], key);
      j := if hs[n].key == key then n else j;
    } else {
      HeardIsStored(hs[..n], key);
      assert forall m | 0 <= m < n :: hs[..n][m] == hs[m];
      i, j := n, n;
    }
  }

  // ---------------------------------------------------------------- queries

  /** `q`, trimmed, as `String.prototype.trim` does. */
  predicate Space(c: char) {
    var u := c as int;
    || 0x09 <= u <= 0x0D || u == 0x20 || u == 0xA0 || u == 0x1680 || 0x2000 <= u <= 0x200A
    || u == 0x2028 || u == 0x2029 || u == 0x202F || u == 0x205F || u == 0x3000 || u == 0xFEFF
  }

  function TrimStart(s: string): string {
    if s != "" && Space(s[0]) then TrimStart(s[1..]) else s
  }

  function TrimEnd(s: string): string {
    if s != "" && Space(s[|s| - 1]) then TrimEnd(s[..|s| - 1]) else s
  }

  function Trim(s: string): string {
    TrimEnd(TrimStart(s))
  }

  predicate HexDigit(c: char) {
    '0' <= c <= '9' || 'A' <= c <= 'F' || 'a' <= c <= 'f'
  }

  predicate UpperHex(s: string) {
    forall c | c in s :: '0' <= c <= '9' || 'A' <= c <= 'F'
  }

  function Upper(c: char): char {
    if 'a' <= c <= 'f' then c - 'a' + 'A' else c
  }

  function ToUpper(s: string): (r: string)
    ensures |r| == |s| && forall i | 0 <= i < |s| :: r[i] == Upper(s[i])
  {
    if s == "" then "" else [Upper(s[0])] + ToUpper(s[1..])
  }

  const MIN_QUERY_HEX_LENGTH := 2
  const MAX_QUERY_HEX_LENGTH := 64

  function NormalizeQuery(raw: string): Option<string> {
    var trimmed := Trim(raw);
    if |trimmed| < MIN_QUERY_HEX_LENGTH || |trimmed| > MAX_QUERY_HEX_LENGTH || !(forall c | c in trimmed :: HexDigit(c)) then None
    else Some(ToUpper(trimmed))
  }

  lemma {:induction false} NothingToTrim(s: string)
    requires forall c | c in s :: HexDigit(c)
    ensures Trim(s) == s
  {
    if s != "" {
      assert s[0] in s && s[|s| - 1] in s;
    }
  }

  /** What trimming leaves: the text without the white space around it. */
  predicate Bare(s: string) {
    s != "" ==> !Space(s[0]) && !Space(s[|s| - 1])
  }

  predicate Blank(s: string) {
    forall c | c in s :: Space(c)
  }

  lemma {:induction false} TrimsStart(pre: string, s: string)
    requires Blank(pre) && (s != "" ==> !Space(s[0]))
    ensures TrimStart(pre + s) == s
  {
    if pre == "" {
      assert pre + s == s;
    } else {
      assert pre[0] in pre && (pre + s)[1..] == pre[1..] + s;
      assert forall c | c in pre[1..] :: c in pre;
      TrimsStart(pre[1..], s);
    }
  }

  lemma {:induction false} TrimsEnd(s: string, post: string)
    requires Blank(post) && (s != "" ==> !Space(s[|s| - 1]))
    ensures TrimEnd(s + post) == s
  {
    if post == "" {
      assert s + post == s;
    } else {
      var n := |post| - 1;
      assert post[n] in post && (s + post)[..|s + post| - 1] == s + post[..n];
      assert forall c | c in post[..n] :: c in post;
      TrimsEnd(s, post[..n]);
    }
  }

  lemma {:induction false} BlankTrims(s: string)
    requires Blank(s)
    ensures TrimStart(s) == ""
  {
    if s != "" {
      assert s[0] in s;
      assert forall c | c in s[1..] :: c in s;
      BlankTrims(s[1..]);
    }
  }

  /** White space around a bare text is what trimming takes away, all of it and nothing else. */
  lemma TrimLeavesBare(pre: string, s: string, post: string)
    requires Blank(pre) && Bare(s) && Blank(post)
    ensures Trim(pre + s + post) == s
  {
    if s == "" {
      assert pre + s + post == pre + post;
      assert forall c | c in pre + post :: c in pre || c in post;
      BlankTrims(pre + post);
    } else {
      assert pre + s + post == pre + (s + post);
      TrimsStart(pre, s + post);
      TrimsEnd(s, post);
    }
  }

  /** Every text is a bare one with white space around it. */
  lemma {:induction false} TrimSplits(s: string) returns (pre: string, post: string)
    ensures Blank(pre) && Blank(post) && Bare(Trim(s)) && s == pre + Trim(s) + post
  {
    pre := SplitStart(s);
    post := SplitEnd(TrimStart(s));
  }

  lemma {:induction false} SplitStart(s: string) returns (pre: string)
    ensures Blank(pre) && s == pre + TrimStart(s) && (TrimStart(s) != "" ==> !Space(TrimStart(s)[0]))
  {
    pre := "";
    if s != "" && Space(s[0]) {
      pre := SplitStart(s[1..]);
      pre := [s[0]] + pre;
      assert s == [s[0]] + s[1..];
    }
  }

  lemma {:induction false} SplitEnd(s: string) returns (post: string)
    ensures Blank(post) && s == TrimEnd(s) + post && (TrimEnd(s) != "" ==> !Space(TrimEnd(s)[|TrimEnd(s)| - 1]))
  {
    post := "";
    if s != "" && Space(s[|s| - 1]) {
      post := SplitEnd(s[..|s| - 1]);
      post := post + [s[|s| - 1]];
      assert s == s[..|s| - 1] + [s[|s| - 1]];
    }
  }

  /** The white space of ECMAScript, and its line terminators. */
  lemma SpacesAreListed(c: char)
    ensures Space(c) <==> c as int in {9, 10, 11, 12, 13, 32, 160, 5760, 8192, 8193, 8194, 8195, 8196, 8197, 8198, 8199, 8200,
                                       8201, 8202, 8232, 8233, 8239, 8287, 12288, 65279}
  {
  }

  /** A query is good exactly when it is 2 to 64 hexadecimal digits, of either case, with white space around them at most. */
  lemma NormalizesExactlyWhen(pre: string, core: string, post: string)
    requires Blank(pre) && Bare(core) && Blank(post)
    ensures NormalizeQuery(pre + core + post).Some?
            <==> 2 <= |core| <= 64 && forall c | c in core :: '0' <= c <= '9' || 'a' <= c <= 'f' || 'A' <= c <= 'F'
    ensures NormalizeQuery(pre + core + post).Some? ==>
              var q := NormalizeQuery(pre + core + post).value;
              && |q| == |core|
              && forall i | 0 <= i < |q| :: q[i] == if 'a' <= core[i] <= 'f' then core[i] - 'a' + 'A' else core[i]
  {
    TrimLeavesBare(pre, core, post);
  }

  /** A normalized query is 2 to 64 upper-case digits, and normalizing it again changes nothing. */
  lemma NormalizedIsNormal(raw: string)
    requires NormalizeQuery(raw).Some?
    ensures var q := NormalizeQuery(raw).value;
            UpperHex(q) && MIN_QUERY_HEX_LENGTH <= |q| <= MAX_QUERY_HEX_LENGTH && NormalizeQuery(q) == Some(q)
  {
    var q, trimmed := NormalizeQuery(raw).value, Trim(raw);
    UpperOfHex(trimmed);
    NothingToTrim(q);
    UpperOfUpper(q);
  }

  lemma {:induction false} UpperOfHex(s: string)
    requires forall c | c in s :: HexDigit(c)
    ensures UpperHex(ToUpper(s)) && forall c | c in ToUpper(s) :: HexDigit(c)
  {
    if s != "" {
      assert s[0] in s;
      assert forall c | c in s[1..] :: c in s;
      UpperOfHex(s[1..]);
    }
  }

  lemma {:induction false} UpperOfUpper(s: string)
    requires UpperHex(s)
    ensures ToUpper(s) == s
  {
    if s != "" {
      assert s[0] in s;
      assert forall c | c in s[1..] :: c in s;
      UpperOfUpper(s[1..]);
      assert s == [s[0]] + s[1..];
    }
  }

  /**
   * WHERE public_key_hex LIKE q || '%' AND (type = '' OR type = ?); keys and normalized queries are upper-case, and hex
   * digits are no LIKE wildcards.
   */
  function Matches(t: Table, q: string, kind: string): set<string> {
    set k | k in t && q <= k && (kind == "" || t[k].kind == Some(kind))
  }

  datatype Lookup =
    | Invalid
    | NotFound(query: string)
    | Found(query: string, key: string, node: Node)
    | Ambiguous(query: string, matchCount: nat, key: string, node: Node)

  /** The keys of a set but for those still to come, most recently heard first; the order of ties is left open. */
  ghost predicate ListsLatest(keys: seq<string>, todo: set<string>, all: set<string>, t: Table) {
    && todo <= all <= t.Keys
    && |keys| + |todo| == |all|
    && (forall k | k in all :: k in todo || k in keys)
    && (forall i | 0 <= i < |keys| :: keys[i] in all && keys[i] !in todo)
    && (forall i, k | 0 <= i < |keys| && k in todo :: t[keys[i]].lastHeardAt >= t[k].lastHeardAt)
    && forall i, j | 0 <= i < j < |keys| :: t[keys[i]].lastHeardAt >= t[keys[j]].lastHeardAt
  }

  lemma ListsOneMore(keys: seq<string>, todo: set<string>, all: set<string>, t: Table, latest: string)
    requires ListsLatest(keys, todo, all, t) && latest in todo && forall k | k in todo :: t[latest].lastHeardAt >= t[k].lastHeardAt
    ensures ListsLatest(keys + [latest], todo - {latest}, all, t)
  {
    var more := keys + [latest];
    forall i, j | 0 <= i < j < |more|
      ensures t[more[i]].lastHeardAt >= t[more[j]].lastHeardAt
    {
      assert more[i] == keys[i];
    }
  }

  /** Every matching row, most recently heard first; the order of ties is left open. */
  method FindNodesByPublicKeyPrefix(t: Table, q: string, kind: string) returns (keys: seq<string>)
    ensures (set k | k in keys) == Matches(t, q, kind) && |keys| == |Matches(t, q, kind)|
    ensures forall i, j | 0 <= i < j < |keys| :: keys[i] in t && keys[j] in t && t[keys[i]].lastHeardAt >= t[keys[j]].lastHeardAt
  {
    keys := [];
    var all := Matches(t, q, kind);
    var todo := all;
    while todo != {}
      invariant ListsLatest(keys, todo, all, t)
      decreases |todo|
    {
      var latest := LatestAmong(t, todo);
      ListsOneMore(keys, todo, all, t, latest);
      keys := keys + [latest];
      todo := todo - {latest};
    }
  }

  method LatestAmong(t: Table, keys: set<string>) returns (latest: string)
    requires keys != {} && keys <= t.Keys
    ensures latest in keys && forall k | k in keys :: t[latest].lastHeardAt >= t[k].lastHeardAt
  {
    latest :| latest in keys;
    var todo := keys - {latest};
    while todo != {}
      invariant todo <= keys && latest in keys
      invariant forall k | k in keys - todo :: t[latest].lastHeardAt >= t[k].lastHeardAt
      decreases |todo|
    {
      var k :| k in todo;
      if t[k].lastHeardAt > t[latest].lastHeardAt {
        latest := k;
      }
      todo := todo - {k};
    }
  }

  /** What a lookup means: one match is found, several are ambiguous with the latest heard as the best guess. */
  ghost predicate Answers(r: Lookup, t: Table, raw: string, kind: string) {
    match NormalizeQuery(raw)
    case None => r == Invalid
    case Some(q) =>
      var matches := Matches(t, q, kind);
      match r
      case Invalid => false
      case NotFound(query) => query == q && matches == {}
      case Found(query, key, node) => query == q && matches == {key} && node == t[key]
      case Ambiguous(query, count, key, node) =>
        && query == q && count == |matches| > 1 && key in matches && node == t[key]
        && forall k | k in matches :: t[k].lastHeardAt <= node.lastHeardAt
  }

  method FindByPrefix(t: Table, raw: string, kind: string) returns (r: Lookup)
    ensures Answers(r, t, raw, kind)
  {
    var normalized := NormalizeQuery(raw);
    if normalized.None? {
      return Invalid;
    }
    var query := normalized.value;
    var matches := FindNodesByPublicKeyPrefix(t, query, kind);
    ghost var found := Matches(t, query, kind);
    if |matches| == 0 {
      return NotFound(query);
    }
    assert matches[0] in found;
    if |matches| == 1 {
      Only(found, matches[0]);
      return Found(query, matches[0], t[matches[0]]);
    }
    forall k | k in found
      ensures t[k].lastHeardAt <= t[matches[0]].lastHeardAt
    {
      assert k in matches;
    }
    r := Ambiguous(query, |matches|, matches[0], t[matches[0]]);
  }

  lemma Only(s: set<string>, x: string)
    requires x in s && |s| == 1
    ensures s == {x}
  {
    assert |s - {x}| == 0;
  }

  /** The key an answer names is still a match of a narrower search. */
  predicate StillMatches(r: Lookup, matches: set<string>) {
    (r.Found? || r.Ambiguous?) && r.key in matches
  }

  /**
   * What narrowing a search may do to its answer: nothing turns up, what was found stays or is gone, and only what was
   * ambiguous can be so still, with no more matches; a best guess that still matches is as good as before.
   */
  predicate Narrows(r: Lookup, s: Lookup, still: bool) {
    match r
    case Invalid => s.Invalid?
    case NotFound(_) => s.NotFound?
    case Found(_, key, node) => if still then s.Found? && s.key == key && s.node == node else s.NotFound?
    case Ambiguous(_, count, key, node) =>
      && !s.Invalid?
      && (s.Ambiguous? ==> s.matchCount <= count)
      && (still ==> (s.Found? && s.key == key) || (s.Ambiguous? && s.node.lastHeardAt == node.lastHeardAt))
  }

  lemma FewerMatchesNarrow(t: Table, raw: string, kind: string, r: Lookup, raw': string, kind': string, s: Lookup)
    requires NormalizeQuery(raw).Some? && NormalizeQuery(raw').Some?
    requires Answers(r, t, raw, kind) && Answers(s, t, raw', kind')
    requires Matches(t, NormalizeQuery(raw').value, kind') <= Matches(t, NormalizeQuery(raw).value, kind)
    ensures Narrows(r, s, StillMatches(r, Matches(t, NormalizeQuery(raw').value, kind')))
  {
    var before, after := Matches(t, NormalizeQuery(raw).value, kind), Matches(t, NormalizeQuery(raw').value, kind');
    SubsetSize(after, before);
    if r.Found? {
      assert before == {r.key};
    }
  }

  /** Typing more digits only narrows the answer. */
  lemma ExtendingNarrows(t: Table, raw: string, longer: string, kind: string, r: Lookup, s: Lookup)
    requires NormalizeQuery(raw).Some? && NormalizeQuery(longer).Some?
    requires NormalizeQuery(raw).value <= NormalizeQuery(longer).value
    requires Answers(r, t, raw, kind) && Answers(s, t, longer, kind)
    ensures Narrows(r, s, StillMatches(r, Matches(t, NormalizeQuery(longer).value, kind)))
  {
    FewerMatchesNarrow(t, raw, kind, r, longer, kind, s);
  }

  /** So does naming a type. */
  lemma TypeNarrows(t: Table, raw: string, kind: string, r: Lookup, s: Lookup)
    requires NormalizeQuery(raw).Some?
    requires Answers(r, t, raw, "") && Answers(s, t, raw, kind)
    ensures Narrows(r, s, StillMatches(r, Matches(t, NormalizeQuery(raw).value, kind)))
  {
    FewerMatchesNarrow(t, raw, "", r, raw, kind, s);
  }

  /** A whole 32-byte key. */
  predicate FullKey(key: string) {
    |key| == MAX_QUERY_HEX_LENGTH && UpperHex(key)
  }

  /** With keys stored whole, a 64-digit query is never ambiguous, and finds exactly its own node. */
  lemma FullKeyIsExact(t: Table, raw: string, kind: string, r: Lookup)
    requires forall k | k in t :: FullKey(k)
    requires Answers(r, t, raw, kind) && NormalizeQuery(raw).Some? && |NormalizeQuery(raw).value| == MAX_QUERY_HEX_LENGTH
    ensures !r.Ambiguous?
    ensures r.Found? <==> NormalizeQuery(raw).value in t && (kind == "" || t[NormalizeQuery(raw).value].kind == Some(kind))
  {
    var q := NormalizeQuery(raw).value;
    forall k | k in Matches(t, q, kind)
      ensures k == q
    {
      assert k == k[..|q|];
    }
    SubsetSize(Matches(t, q, kind), {q});
    if q in t && (kind == "" || t[q].kind == Some(kind)) {
      assert q in Matches(t, q, kind);
    }
  }

  // ---------------------------------------------------------------- totals

  predicate In(at: int, start: int, end: int) {
    start <= at < end
  }

  predicate OfKind(n: Node, kind: string) {
    kind == "" || n.kind == Some(kind)
  }

  function Added(t: Table, start: int, end: int, kind: string): set<string> {
    set k | k in t && In(t[k].firstHeardAt, start, end) && OfKind(t[k], kind)
  }

  function Updated(t: Table, start: int, end: int, kind: string): set<string> {
    set k | k in t && In(t[k].lastHeardAt, start, end) && t[k].lastHeardAt != t[k].firstHeardAt && OfKind(t[k], kind)
  }

  function Active(t: Table, start: int, end: int, kind: string): set<string> {
    set k | k in t && OfKind(t[k], kind) && (In(t[k].firstHeardAt, start, end) || In(t[k].lastHeardAt, start, end))
  }

  /** The distinct active nodes are the added and the updated ones, those that are both counted once. */
  lemma ActiveIsAddedOrUpdated(t: Table, start: int, end: int, kind: string)
    ensures var added, updated := Added(t, start, end, kind), Updated(t, start, end, kind);
            && Active(t, start, end, kind) == added + updated
            && (forall k | k in t ::
                  k in added <==> (kind == "" || t[k].kind == Some(kind)) && start <= t[k].firstHeardAt < end)
            && (forall k | k in t ::
                  k in updated <==>
                  && (kind == "" || t[k].kind == Some(kind))
                  && start <= t[k].lastHeardAt < end && t[k].firstHeardAt != t[k].lastHeardAt)
            && |Active(t, start, end, kind)| == |added| + |updated| - |added * updated|
  {
    var added, updated := Added(t, start, end, kind), Updated(t, start, end, kind);
    assert Active(t, start, end, kind) == added + updated;
  }

  // ---------------------------------------------------------------- the registry

  /** A parsed advert, its name perhaps empty. */
  datatype Advert = Advert(key: string, name: string, kind: Option<string>)

  class NodeRegistry {
    var nodes: Table
    /** Every hearing that was stored. */
    ghost var hearings: seq<Hearing>

    ghost predicate Valid()
      reads this
    {
      nodes == TableOf(hearings) && forall k | k in nodes :: FullKey(k)
    }

    constructor ()
      ensures Valid() && hearings == []
    {
      nodes, hearings := map[], [];
    }

    /** Only a verified advert with a name is stored; a write that fails is logged and forgotten. */
    method RecordFromDecodedPacket(advert: Option<Advert>, verified: bool, now: int, fails: bool)
      requires Valid() && (advert.Some? ==> FullKey(advert.value.key))
      modifies this
      ensures Valid()
      ensures hearings == if advert.Some? && advert.value.name != "" && verified && !fails
                          then old(hearings) + [Hearing(advert.value.key, advert.value.name, advert.value.kind, now)]
                          else old(hearings)
    {
      if advert.None? || advert.value.name == "" {
        return;
      }
      if !verified || fails {
        return;
      }
      var h := Hearing(advert.value.key, advert.value.name, advert.value.kind, now);
      nodes := Upsert(nodes, h);
      hearings := hearings + [h];
      assert hearings[..|hearings| - 1] == old(hearings);
    }
  }
}
