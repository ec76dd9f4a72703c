/**
 Indexing tasks in the gossip state: the printing, parsing and writing functions of
 `quickwit-cluster/src/cluster.rs`.

 A task is stored under `indexer.task:{pipeline uid}` as
 `{index id}:{incarnation}:{source id}:{fingerprint}:{shard ids}`. ULIDs are printed and parsed by a
 library; the model only knows that its two functions are inverse.
 */
module IndexingTasks {
  import opened Wrappers

  type Ulid = nat

  /** The `Display` and `from_string` of ULIDs. */
  datatype UlidCodec = UlidCodec(print_: Ulid -> string, parse: string -> Option<Ulid>) {
    ghost predicate Valid() {
      forall u: Ulid :: parse(print_(u)) == Some(u)
    }
  }

  type U64 = n: nat | n < 0x1_0000_0000_0000_0000

  datatype IndexUid = IndexUid(indexId: string, incarnation: Ulid)

  datatype IndexingTask = IndexingTask(
    indexUid: IndexUid,
    sourceId: string,
    pipelineUid: Ulid,
    shardIds: seq<string>,
    fingerprint: U64)

  const PREFIX := "indexer.task:"

  // ---------------------------------------------------------------------------
  // Splitting and joining strings

  /** The text before and after the last occurrence of `c`: one step of `rsplitn`. */
  function SplitLast(s: string, c: char): (r: Option<(string, string)>)
    ensures r.None? <==> c !in s
    ensures r.Some? ==> s == r.value.0 + [c] + r.value.1 && c !in r.value.1
  {
    if s == "" then None
    else if s[|s| - 1] == c then
      assert s == s[..|s| - 1] + [c] + "";
      Some((s[..|s| - 1], ""))
    else
      assert s == s[..|s| - 1] + [s[|s| - 1]];
      match SplitLast(s[..|s| - 1], c)
      case None => None
      case Some((a, b)) =>
        assert s == a + [c] + (b + [s[|s| - 1]]);
        Some((a, b + [s[|s| - 1]]))
  }

  /** The text before and after the first occurrence of `c`: `split_once`. */
  function SplitFirst(s: string, c: char): (r: Option<(string, string)>)
    ensures r.None? <==> c !in s
    ensures r.Some? ==> s == r.value.0 + [c] + r.value.1 && c !in r.value.0
  {
    if s == "" then None
    else if s[0] == c then
      assert s == "" + [c] + s[1..];
      Some(("", s[1..]))
    else
      assert s == [s[0]] + s[1..];
      match SplitFirst(s[1..], c)
      case None => None
      case Some((a, b)) =>
        assert s == ([s[0]] + a) + [c] + b;
        Some(([s[0]] + a, b))
  }

  lemma SplitLastUnique(a: string, c: char, b: string)
    requires c !in b
    ensures SplitLast(a + [c] + b, c) == Some((a, b))
  {
    var s := a + [c] + b;
    assert s[|a|] == c;
    var r := SplitLast(s, c);
    hide SplitLast;
    LastPosition(s, a, c, b, r.value.0, r.value.1);
  }

  lemma LastPosition(s: string, a: string, c: char, b: string, x: string, y: string)
    requires s == a + [c] + b == x + [c] + y && c !in b && c !in y
    ensures a == x && b == y
  {
    assert forall k :: |a| < k < |s| ==> s[k] == b[k - |a| - 1];
    assert forall k :: |x| < k < |s| ==> s[k] == y[k - |x| - 1];
    assert s[|x|] == c && s[|a|] == c;
    assert |x| == |a|;
    assert s[..|a|] == a && s[..|x|] == x && s[|a| + 1..] == b && s[|x| + 1..] == y;
  }

  lemma SplitFirstUnique(a: string, c: char, b: string)
    requires c !in a
    ensures SplitFirst(a + [c] + b, c) == Some((a, b))
  {
    var s := a + [c] + b;
    assert s[|a|] == c;
    var r := SplitFirst(s, c);
    var (x, y) := r.value;
    assert forall k :: 0 <= k < |a| ==> s[k] == a[k];
    assert forall k :: 0 <= k < |x| ==> s[k] == x[k];
    assert s[|x|] == c;
    assert |x| == |a|;
    assert s[..|a|] == a && s[..|x|] == x && s[|a| + 1..] == b && s[|x| + 1..] == y;
  }

  /** `join(",")` */
  function Join(parts: seq<string>): string {
    if parts == [] then ""
    else if |parts| == 1 then parts[0]
    else Join(parts[..|parts| - 1]) + "," + parts[|parts| - 1]
  }

  predicate IsPart(p: string) {
    p != "" && ',' !in p
  }

  /** `split(',')` followed by the filter of `parse_shard_ids_str`. */
  function SplitNonEmpty(s: string): (parts: seq<string>)
    ensures forall p :: p in parts ==> IsPart(p)
    decreases |s|
  {
    match SplitLast(s, ',')
    case None => if s == "" then [] else [s]
    case Some((a, b)) => SplitNonEmpty(a) + (if b == "" then [] else [b])
  }

  lemma {:induction false} SplitNonEmptyChars(s: string, p: string, c: char)
    requires p in SplitNonEmpty(s) && c in p
    ensures c in s
    decreases |s|
  {
    match SplitLast(s, ',')
    case None =>
    case Some((a, b)) =>
      if p in SplitNonEmpty(a) { SplitNonEmptyChars(a, p, c); }
  }

  lemma {:induction false} JoinChars(parts: seq<string>, c: char)
    requires c != ',' && forall i :: 0 <= i < |parts| ==> c !in parts[i]
    ensures c !in Join(parts)
  {
    if |parts| > 1 { JoinChars(parts[..|parts| - 1], c); }
  }

  /** Splitting undoes joining for parts that are not empty and have no comma. */
  lemma SplitNonEmptyStep(a: string, b: string)
    requires IsPart(b)
    ensures SplitNonEmpty(a + [','] + b) == SplitNonEmpty(a) + [b]
  {
    SplitLastUnique(a, ',', b);
  }

  lemma JoinStep(parts: seq<string>)
    requires |parts| > 1
    ensures Join(parts) == Join(parts[..|parts| - 1]) + [','] + parts[|parts| - 1]
  {
  }

  lemma SplitNonEmptyWhole(s: string)
    requires IsPart(s)
    ensures SplitNonEmpty(s) == [s]
  {
  }

  lemma {:induction false} SplitJoin(parts: seq<string>)
    requires forall i :: 0 <= i < |parts| ==> IsPart(parts[i])
    ensures SplitNonEmpty(Join(parts)) == parts
  {
    if |parts| > 1 {
      var front, last := parts[..|parts| - 1], parts[|parts| - 1];
      JoinStep(parts);
      hide Join, SplitNonEmpty, IsPart;
      SplitJoin(front);
      SplitNonEmptyStep(Join(front), last);
      assert parts == front + [last];
    } else if |parts| == 1 {
      assert Join(parts) == parts[0];
      hide SplitNonEmpty;
      SplitNonEmptyWhole(parts[0]);
    }
  }

  // ---------------------------------------------------------------------------
  // Decimal numbers

  function PrintDecimal(n: nat): (s: string)
    ensures s != "" && forall i :: 0 <= i < |s| ==> '0' <= s[i] <= '9'
  {
    var digit := ('0' as int + n % 10) as char;
    if n < 10 then [digit] else PrintDecimal(n / 10) + [digit]
  }

  /** The value of a string of digits. */
  function ParseDigits(s: string): Option<nat> {
    if s == "" then Some(0)
    else
      var last := s[|s| - 1];
      match ParseDigits(s[..|s| - 1])
      case None => None
      case Some(n) => if '0' <= last <= '9' then Some(10 * n + (last as int - '0' as int)) else None
  }

  /** `u64::from_str`: an optional plus sign, at least one digit, no overflow. */
  function ParseU64(s: string): Option<U64> {
    var digits := if s != "" && s[0] == '+' then s[1..] else s;
    if digits == "" then None
    else
      match ParseDigits(digits)
      case None => None
      case Some(n) => if n < 0x1_0000_0000_0000_0000 then Some(n) else None
  }

  lemma {:induction false} ParsePrintDigits(n: nat)
    ensures ParseDigits(PrintDecimal(n)) == Some(n)
  {
    var s := PrintDecimal(n);
    if n < 10 {
      assert s[..0] == "";
    } else {
      assert s[..|s| - 1] == PrintDecimal(n / 10);
      ParsePrintDigits(n / 10);
    }
  }

  lemma ParsePrintU64(n: U64)
    ensures ParseU64(PrintDecimal(n)) == Some(n) && ':' !in PrintDecimal(n)
  {
    ParsePrintDigits(n);
  }

  // ---------------------------------------------------------------------------
  // Sorting shard ids

  /** The order of `ShardId`: lexicographic. */
  predicate AtMost(a: string, b: string) {
    a == "" || (b != "" && (a[0] < b[0] || (a[0] == b[0] && AtMost(a[1..], b[1..]))))
  }

  function Insert(x: string, sorted: seq<string>): seq<string> {
    if sorted == [] then [x]
    else if AtMost(x, sorted[0]) then [x] + sorted
    else [sorted[0]] + Insert(x, sorted[1..])
  }

  function Sort(ids: seq<string>): seq<string> {
    if ids == [] then [] else Insert(ids[0], Sort(ids[1..]))
  }

  predicate IsSorted(ids: seq<string>) {
    forall i, j :: 0 <= i < j < |ids| ==> AtMost(ids[i], ids[j])
  }

  /** The first i characters agree, and then `a` ends or has the smaller character. */
  predicate DecidedAt(a: string, b: string, i: nat) {
    && i <= |a| && i <= |b| && a[..i] == b[..i]
    && (i == |a| || (i < |b| && a[i] < b[i]))
  }

  /** The order on shard ids: a prefix, or a smaller character at the first difference. */
  lemma {:induction false} AtMostIff(a: string, b: string)
    ensures AtMost(a, b) <==> exists i: nat :: DecidedAt(a, b, i)
  {
    if a == "" {
      assert DecidedAt(a, b, 0);
    } else if b != "" && a[0] == b[0] {
      AtMostIff(a[1..], b[1..]);
      if i: nat :| DecidedAt(a, b, i) {
        assert i > 0;
        assert a[1..][..i - 1] == a[..i][1..] && b[1..][..i - 1] == b[..i][1..];
        assert DecidedAt(a[1..], b[1..], i - 1);
      }
      if i: nat :| DecidedAt(a[1..], b[1..], i) {
        assert a[..i + 1] == [a[0]] + a[1..][..i] && b[..i + 1] == [b[0]] + b[1..][..i];
        assert DecidedAt(a, b, i + 1);
      }
    } else if b != "" && a[0] < b[0] {
      assert DecidedAt(a, b, 0);
    } else if b != "" {
      forall i: nat ensures !DecidedAt(a, b, i) {
        if 0 < i <= |a| && i <= |b| {
          assert a[..i][0] == a[0] && b[..i][0] == b[0];
        }
      }
    }
  }

  lemma {:induction false} AtMostTotal(a: string, b: string)
    ensures AtMost(a, b) || AtMost(b, a)
  {
    if a != "" && b != "" && a[0] == b[0] { AtMostTotal(a[1..], b[1..]); }
  }

  lemma {:induction false} AtMostTransitive(a: string, b: string, c: string)
    requires AtMost(a, b) && AtMost(b, c)
    ensures AtMost(a, c)
  {
    if a != "" && b != "" && c != "" && a[0] == b[0] == c[0] {
      AtMostTransitive(a[1..], b[1..], c[1..]);
    }
  }

  lemma {:induction false} InsertPermutes(x: string, sorted: seq<string>)
    ensures multiset(Insert(x, sorted)) == multiset(sorted) + multiset{x}
  {
    hide AtMost;
    if sorted != [] {
      InsertPermutes(x, sorted[1..]);
      assert sorted == [sorted[0]] + sorted[1..];
    }
  }

  lemma {:induction false} InsertSorts(x: string, sorted: seq<string>)
    requires IsSorted(sorted)
    ensures IsSorted(Insert(x, sorted))
  {
    hide AtMost;
    if sorted == [] {
    } else if AtMost(x, sorted[0]) {
      forall j | 0 < j < |sorted| ensures AtMost(x, sorted[j]) {
        AtMostTransitive(x, sorted[0], sorted[j]);
      }
    } else {
      AtMostTotal(x, sorted[0]);
      InsertSorts(x, sorted[1..]);
      var rest := Insert(x, sorted[1..]);
      InsertPermutes(x, sorted[1..]);
      forall j | 0 <= j < |rest| ensures AtMost(sorted[0], rest[j]) {
        assert rest[j] in multiset(sorted[1..]) + multiset{x};
        assert rest[j] == x || rest[j] in sorted[1..];
      }
    }
  }

  /** Sorting yields the same shard ids in lexicographic order. */
  lemma {:induction false} SortSorts(ids: seq<string>)
    ensures IsSorted(Sort(ids)) && multiset(Sort(ids)) == multiset(ids)
  {
    if ids != [] {
      SortSorts(ids[1..]);
      InsertSorts(ids[0], Sort(ids[1..]));
      InsertPermutes(ids[0], Sort(ids[1..]));
      assert ids == [ids[0]] + ids[1..];
    }
  }

  lemma SortMembers(ids: seq<string>, x: string)
    ensures x in Sort(ids) <==> x in ids
  {
    SortSorts(ids);
    assert x in Sort(ids) <==> x in multiset(Sort(ids));
    assert x in ids <==> x in multiset(ids);
  }

  // ---------------------------------------------------------------------------
  // One task

  function PrintIndexUid(codec: UlidCodec, uid: IndexUid): string {
    uid.indexId + ":" + codec.print_(uid.incarnation)
  }

  function ParseIndexUid(codec: UlidCodec, s: string): Option<IndexUid> {
    match SplitFirst(s, ':')
    case None => None
    case Some((indexId, rest)) =>
      match codec.parse(rest)
      case None => None
      case Some(u) => Some(IndexUid(indexId, u))
  }

  function Key(codec: UlidCodec, t: IndexingTask): string {
    PREFIX + codec.print_(t.pipelineUid)
  }

  function Value(codec: UlidCodec, t: IndexingTask): string {
    PrintIndexUid(codec, t.indexUid) + ":" + t.sourceId + ":" + PrintDecimal(t.fingerprint) + ":"
    + Join(Sort(t.shardIds))
  }

  /** chitchat_kv_to_indexing_task */
  function ParseTask(codec: UlidCodec, key: string, value: string): Option<IndexingTask> {
    if !(PREFIX <= key) then None
    else
      match codec.parse(key[|PREFIX|..])
      case None => None
      case Some(pipelineUid) => ParseValue(codec, pipelineUid, value)
  }

  function ParseValue(codec: UlidCodec, pipelineUid: Ulid, value: string): Option<IndexingTask> {
    match SplitLast(value, ':')
    case None => None
    case Some((value1, shards)) =>
      match SplitLast(value1, ':')
      case None => None
      case Some((value2, fingerprint)) =>
        match SplitLast(value2, ':')
        case None => None
        case Some((index, source)) =>
          match ParseU64(fingerprint)
          case None => None
          case Some(fp) =>
            match ParseIndexUid(codec, index)
            case None => None
            case Some(uid) => Some(IndexingTask(uid, source, pipelineUid, SplitNonEmpty(shards), fp))
  }

  /** What a task looks like once it has been written: its shard ids are sorted. */
  function Normalized(t: IndexingTask): IndexingTask {
    t.(shardIds := Sort(t.shardIds))
  }

  predicate ShardPrintable(id: string) {
    id != "" && ',' !in id && ':' !in id
  }

  /** Separators do not occur where they would be mistaken for structure. */
  predicate Printable(t: IndexingTask) {
    && ':' !in t.indexUid.indexId
    && ':' !in t.sourceId
    && forall i :: 0 <= i < |t.shardIds| ==> ShardPrintable(t.shardIds[i])
  }

  lemma PartsPrintable(shards: string)
    requires ':' !in shards
    ensures forall i :: 0 <= i < |SplitNonEmpty(shards)| ==> ShardPrintable(SplitNonEmpty(shards)[i])
  {
    forall i | 0 <= i < |SplitNonEmpty(shards)| ensures ShardPrintable(SplitNonEmpty(shards)[i]) {
      var p := SplitNonEmpty(shards)[i];
      assert p in SplitNonEmpty(shards) && IsPart(p);
      if ':' in p {
        SplitNonEmptyChars(shards, p, ':');
      }
    }
  }

  lemma IndexUidRoundTrip(codec: UlidCodec, uid: IndexUid)
    requires codec.Valid() && ':' !in uid.indexId
    ensures ParseIndexUid(codec, PrintIndexUid(codec, uid)) == Some(uid)
  {
    SplitFirstUnique(uid.indexId, ':', codec.print_(uid.incarnation));
  }

  lemma PrintableRoundTrips(codec: UlidCodec, t: IndexingTask)
    requires codec.Valid() && Printable(t)
    ensures ParseValue(codec, t.pipelineUid, Value(codec, t)) == Some(Normalized(t))
  {
    var index, fp := PrintIndexUid(codec, t.indexUid), PrintDecimal(t.fingerprint);
    var shards := Sort(t.shardIds);
    forall i | 0 <= i < |shards| ensures ShardPrintable(shards[i]) {
      SortMembers(t.shardIds, shards[i]);
    }
    JoinChars(shards, ':');
    SplitJoin(shards);
    ParsePrintU64(t.fingerprint);
    IndexUidRoundTrip(codec, t.indexUid);
    var value2 := index + [':'] + t.sourceId;
    var value1 := value2 + [':'] + fp;
    assert Value(codec, t) == value1 + [':'] + Join(shards);
    SplitLastUnique(value1, ':', Join(shards));
    SplitLastUnique(value2, ':', fp);
    SplitLastUnique(index, ':', t.sourceId);
  }

  /** Whatever text is parsed, what is obtained has no separator inside its fields. */
  lemma ParsedIsPrintable(codec: UlidCodec, pipelineUid: Ulid, value: string)
    requires ParseValue(codec, pipelineUid, value).Some?
    ensures Printable(ParseValue(codec, pipelineUid, value).value)
  {
    var (value1, shards) := SplitLast(value, ':').value;
    var t := ParseValue(codec, pipelineUid, value).value;
    assert t.shardIds == SplitNonEmpty(shards) && ':' !in shards;
    PartsPrintable(shards);
    hide SplitNonEmpty, ShardPrintable;
  }

  /** A task survives being written and parsed if and only if it is printable. */
  lemma RoundTripIffPrintable(codec: UlidCodec, t: IndexingTask)
    requires codec.Valid()
    ensures ParseTask(codec, Key(codec, t), Value(codec, t)) == Some(Normalized(t)) <==> Printable(t)
  {
    var uid := codec.print_(t.pipelineUid);
    assert Key(codec, t)[|PREFIX|..] == uid;
    if Printable(t) {
      PrintableRoundTrips(codec, t);
    }
    if ParseTask(codec, Key(codec, t), Value(codec, t)) == Some(Normalized(t)) {
      ParsedIsPrintable(codec, t.pipelineUid, Value(codec, t));
      forall i | 0 <= i < |t.shardIds| ensures ShardPrintable(t.shardIds[i]) {
        SortMembers(t.shardIds, t.shardIds[i]);
        assert t.shardIds[i] in Normalized(t).shardIds;
      }
    }
  }

  // ---------------------------------------------------------------------------
  // The tasks of a node state

  type KeyValues = map<string, string>

  predicate IsTaskKey(key: string) {
    PREFIX <= key
  }

  /** The entries written for the tasks; with equal pipeline uids the last one wins. */
  function Written(codec: UlidCodec, tasks: seq<IndexingTask>): KeyValues {
    if tasks == [] then map[]
    else
      var last := tasks[|tasks| - 1];
      Written(codec, tasks[..|tasks| - 1])[Key(codec, last) := Value(codec, last)]
  }

  /** set_indexing_tasks_in_node_state: task keys are replaced, other keys are kept. */
  function SetTasks(codec: UlidCodec, tasks: seq<IndexingTask>, state: KeyValues): KeyValues {
    (map k | k in state && !IsTaskKey(k) :: state[k]) + Written(codec, tasks)
  }

  /** The keys that `iter_prefix` goes through, in some order. */
  ghost predicate IterPrefix(keys: seq<string>, state: KeyValues) {
    && (forall i, j :: 0 <= i < j < |keys| ==> keys[i] != keys[j])
    && (forall k :: k in keys <==> k in state && IsTaskKey(k))
  }

  /** parse_indexing_tasks */
  function ParseTasks(codec: UlidCodec, keys: seq<string>, state: KeyValues): seq<IndexingTask>
    requires forall i :: 0 <= i < |keys| ==> keys[i] in state
  {
    if keys == [] then []
    else
      var last := keys[|keys| - 1];
      ParseTasks(codec, keys[..|keys| - 1], state) + ParseTask(codec, last, state[last]).ToSeq()
  }

  predicate DistinctUids(tasks: seq<IndexingTask>) {
    forall i, j :: 0 <= i < j < |tasks| ==> tasks[i].pipelineUid != tasks[j].pipelineUid
  }

  function NormalizedAll(tasks: seq<IndexingTask>): seq<IndexingTask> {
    seq(|tasks|, i requires 0 <= i < |tasks| => Normalized(tasks[i]))
  }

  lemma KeyInjective(codec: UlidCodec, t: IndexingTask, u: IndexingTask)
    requires codec.Valid() && Key(codec, t) == Key(codec, u)
    ensures t.pipelineUid == u.pipelineUid
  {
    assert Key(codec, t)[|PREFIX|..] == codec.print_(t.pipelineUid);
    assert Key(codec, u)[|PREFIX|..] == codec.print_(u.pipelineUid);
    assert codec.parse(codec.print_(t.pipelineUid)) == Some(t.pipelineUid);
  }

  /** Every written entry comes from a task. */
  lemma {:induction false} WrittenOrigin(codec: UlidCodec, tasks: seq<IndexingTask>, key: string)
    returns (i: nat)
    requires key in Written(codec, tasks)
    ensures i < |tasks| && key == Key(codec, tasks[i])
    ensures Written(codec, tasks)[key] == Value(codec, tasks[i])
  {
    var last := tasks[|tasks| - 1];
    if key == Key(codec, last) {
      i := |tasks| - 1;
    } else {
      i := WrittenOrigin(codec, tasks[..|tasks| - 1], key);
    }
  }

  /** With distinct uids every task has its own entry. */
  lemma {:induction false} WrittenHas(codec: UlidCodec, tasks: seq<IndexingTask>, i: nat)
    requires codec.Valid() && DistinctUids(tasks) && i < |tasks|
    ensures Key(codec, tasks[i]) in Written(codec, tasks)
    ensures Written(codec, tasks)[Key(codec, tasks[i])] == Value(codec, tasks[i])
  {
    if i < |tasks| - 1 {
      WrittenHas(codec, tasks[..|tasks| - 1], i);
      if Key(codec, tasks[i]) == Key(codec, tasks[|tasks| - 1]) {
        KeyInjective(codec, tasks[i], tasks[|tasks| - 1]);
      }
    }
  }

  /** The entries under task keys are the written ones; all others are untouched. */
  lemma SetTasksEntries(codec: UlidCodec, tasks: seq<IndexingTask>, state: KeyValues, key: string)
    ensures IsTaskKey(key) ==>
              (key in SetTasks(codec, tasks, state) <==> key in Written(codec, tasks))
              && (key in Written(codec, tasks) ==>
                    SetTasks(codec, tasks, state)[key] == Written(codec, tasks)[key])
    ensures !IsTaskKey(key) ==>
              (key in SetTasks(codec, tasks, state) <==> key in state)
              && (key in state ==> SetTasks(codec, tasks, state)[key] == state[key])
  {
    if key in Written(codec, tasks) {
      var i := WrittenOrigin(codec, tasks, key);
    }
  }

  lemma ParseTaskUid(codec: UlidCodec, t: IndexingTask, value: string)
    requires codec.Valid() && ParseTask(codec, Key(codec, t), value).Some?
    ensures ParseTask(codec, Key(codec, t), value).value.pipelineUid == t.pipelineUid
  {
    assert Key(codec, t)[|PREFIX|..] == codec.print_(t.pipelineUid);
  }

  lemma {:induction false} ParseTasksOrigin(codec: UlidCodec, keys: seq<string>, state: KeyValues,
                                            t: IndexingTask) returns (key: string)
    requires forall i :: 0 <= i < |keys| ==> keys[i] in state
    requires t in ParseTasks(codec, keys, state)
    ensures key in keys && key in state && ParseTask(codec, key, state[key]) == Some(t)
  {
    var last := keys[|keys| - 1];
    if t in ParseTask(codec, last, state[last]).ToSeq() {
      key := last;
    } else {
      key := ParseTasksOrigin(codec, keys[..|keys| - 1], state, t);
    }
  }

  lemma {:induction false} ParseTasksHas(codec: UlidCodec, keys: seq<string>, state: KeyValues, key: string)
    requires forall i :: 0 <= i < |keys| ==> keys[i] in state
    requires key in keys && ParseTask(codec, key, state[key]).Some?
    ensures ParseTask(codec, key, state[key]).value in ParseTasks(codec, keys, state)
  {
    if key != keys[|keys| - 1] {
      assert key in keys[..|keys| - 1];
      ParseTasksHas(codec, keys[..|keys| - 1], state, key);
    }
  }

  lemma {:induction false} ParseTasksLength(codec: UlidCodec, keys: seq<string>, state: KeyValues)
    requires forall i :: 0 <= i < |keys| ==> keys[i] in state
    ensures |ParseTasks(codec, keys, state)| <= |keys|
  {
    if keys != [] { ParseTasksLength(codec, keys[..|keys| - 1], state); }
  }

  ghost predicate HasKey(codec: UlidCodec, tasks: seq<IndexingTask>, key: string) {
    exists i :: 0 <= i < |tasks| && key == Key(codec, tasks[i])
  }

  /** Parsed under different keys, tasks differ in their uids. */
  lemma {:induction false} ParseTasksDistinct(codec: UlidCodec, tasks: seq<IndexingTask>,
                                              keys: seq<string>, state: KeyValues)
    requires codec.Valid() && forall i :: 0 <= i < |keys| ==> keys[i] in state
    requires forall i, j :: 0 <= i < j < |keys| ==> keys[i] != keys[j]
    requires forall i :: 0 <= i < |keys| ==> HasKey(codec, tasks, keys[i])
    ensures DistinctUids(ParseTasks(codec, keys, state))
  {
    if keys != [] {
      var front, last := keys[..|keys| - 1], keys[|keys| - 1];
      ParseTasksDistinct(codec, tasks, front, state);
      var parsed := ParseTask(codec, last, state[last]);
      if parsed.Some? {
        assert HasKey(codec, tasks, keys[|keys| - 1]);
        var t :| 0 <= t < |tasks| && last == Key(codec, tasks[t]);
        ParseTaskUid(codec, tasks[t], state[last]);
        forall i | 0 <= i < |ParseTasks(codec, front, state)|
          ensures ParseTasks(codec, front, state)[i].pipelineUid != parsed.value.pipelineUid
        {
          var p := ParseTasks(codec, front, state)[i];
          var key := ParseTasksOrigin(codec, front, state, p);
          assert exists j :: 0 <= j < |front| && keys[j] == key;
          var u :| 0 <= u < |tasks| && key == Key(codec, tasks[u]);
          ParseTaskUid(codec, tasks[u], state[key]);
        }
      }
    }
  }

  /** Sequences without repeated uids and with the same members are permutations of each other. */
  lemma {:induction false} SameMembersSameMultiset(a: seq<IndexingTask>, b: seq<IndexingTask>)
    requires DistinctUids(a) && DistinctUids(b)
    requires forall t :: t in a <==> t in b
    ensures multiset(a) == multiset(b)
  {
    forall t ensures multiset(a)[t] == multiset(b)[t] {
      OccursOnce(a, t);
      OccursOnce(b, t);
    }
  }

  lemma {:induction false} OccursOnce(a: seq<IndexingTask>, t: IndexingTask)
    requires DistinctUids(a)
    ensures multiset(a)[t] == if t in a then 1 else 0
  {
    if a != [] {
      var front, last := a[..|a| - 1], a[|a| - 1];
      OccursOnce(front, t);
      assert a == front + [last];
    }
  }

  ghost predicate ReadBack(codec: UlidCodec, tasks: seq<IndexingTask>, state: KeyValues, keys: seq<string>) {
    IterPrefix(keys, SetTasks(codec, tasks, state))
  }

  lemma ReadBackKeys(codec: UlidCodec, tasks: seq<IndexingTask>, state: KeyValues, keys: seq<string>)
    requires codec.Valid() && ReadBack(codec, tasks, state, keys)
    ensures forall i :: 0 <= i < |keys| ==> keys[i] in SetTasks(codec, tasks, state)
    ensures forall i :: 0 <= i < |keys| ==> HasKey(codec, tasks, keys[i])
    ensures forall k :: k in keys <==> k in Written(codec, tasks)
  {
    forall k ensures k in keys <==> k in Written(codec, tasks) {
      SetTasksEntries(codec, tasks, state, k);
      if k in Written(codec, tasks) {
        var i := WrittenOrigin(codec, tasks, k);
      }
    }
    forall i | 0 <= i < |keys| ensures HasKey(codec, tasks, keys[i]) {
      assert keys[i] in keys;
      var j := WrittenOrigin(codec, tasks, keys[i]);
    }
  }

  /** A printable task is read back with its shard ids sorted. */
  lemma WrittenReadsBack(codec: UlidCodec, tasks: seq<IndexingTask>, state: KeyValues,
                         keys: seq<string>, i: nat)
    requires codec.Valid() && ReadBack(codec, tasks, state, keys)
    requires DistinctUids(tasks) && i < |tasks| && Printable(tasks[i])
    ensures forall j :: 0 <= j < |keys| ==> keys[j] in SetTasks(codec, tasks, state)
    ensures Normalized(tasks[i]) in ParseTasks(codec, keys, SetTasks(codec, tasks, state))
  {
    var state' := SetTasks(codec, tasks, state);
    var key := Key(codec, tasks[i]);
    ReadBackKeys(codec, tasks, state, keys);
    WrittenHas(codec, tasks, i);
    SetTasksEntries(codec, tasks, state, key);
    RoundTripIffPrintable(codec, tasks[i]);
    ParseTasksHas(codec, keys, state', key);
  }

  lemma NormalizedDistinct(tasks: seq<IndexingTask>)
    requires DistinctUids(tasks)
    ensures DistinctUids(NormalizedAll(tasks))
  {
  }

  lemma ReadBackIsNormalized(codec: UlidCodec, tasks: seq<IndexingTask>, state: KeyValues,
                             key: string, t: IndexingTask) returns (i: nat)
    requires codec.Valid() && IsTaskKey(key) && key in SetTasks(codec, tasks, state)
    requires forall i :: 0 <= i < |tasks| ==> Printable(tasks[i])
    requires ParseTask(codec, key, SetTasks(codec, tasks, state)[key]) == Some(t)
    ensures i < |tasks| && t == Normalized(tasks[i])
  {
    SetTasksEntries(codec, tasks, state, key);
    i := WrittenOrigin(codec, tasks, key);
    RoundTripIffPrintable(codec, tasks[i]);
  }

  lemma DistinctPrintableReadBack(codec: UlidCodec, tasks: seq<IndexingTask>, state: KeyValues,
                                  keys: seq<string>)
    requires codec.Valid() && ReadBack(codec, tasks, state, keys)
    requires DistinctUids(tasks) && forall i :: 0 <= i < |tasks| ==> Printable(tasks[i])
    ensures forall i :: 0 <= i < |keys| ==> keys[i] in SetTasks(codec, tasks, state)
    ensures multiset(ParseTasks(codec, keys, SetTasks(codec, tasks, state)))
            == multiset(NormalizedAll(tasks))
  {
    var state' := SetTasks(codec, tasks, state);
    ReadBackKeys(codec, tasks, state, keys);
    NormalizedDistinct(tasks);
    ParseTasksDistinct(codec, tasks, keys, state');
    assert forall key :: key in keys ==> IsTaskKey(key);
    hide ReadBack, SetTasks, Printable, ParseTasks, ParseTask, Normalized, DistinctUids, HasKey, IsTaskKey;
    var parsed := ParseTasks(codec, keys, state');
    forall t ensures t in parsed <==> t in NormalizedAll(tasks) {
      if t in parsed {
        var key := ParseTasksOrigin(codec, keys, state', t);
        var i := ReadBackIsNormalized(codec, tasks, state, key, t);
        assert NormalizedAll(tasks)[i] == t;
      }
      if t in NormalizedAll(tasks) {
        var i :| 0 <= i < |tasks| && NormalizedAll(tasks)[i] == t;
        WrittenReadsBack(codec, tasks, state, keys, i);
      }
    }
    SameMembersSameMultiset(parsed, NormalizedAll(tasks));
  }

  lemma UpdateSize(m: KeyValues, k: string, v: string)
    ensures |m[k := v]| == if k in m then |m| else |m| + 1
  {
    assert m[k := v].Keys == m.Keys + {k};
  }

  /** Fewer keys than tasks as soon as two tasks share a uid. */
  lemma {:induction false} WrittenSize(codec: UlidCodec, tasks: seq<IndexingTask>)
    ensures |Written(codec, tasks)| <= |tasks|
    ensures |Written(codec, tasks)| == |tasks| ==> DistinctUids(tasks)
  {
    if tasks != [] {
      hide Key, Value;
      var front, last := tasks[..|tasks| - 1], tasks[|tasks| - 1];
      var before := Written(codec, front);
      UpdateSize(before, Key(codec, last), Value(codec, last));
      assert Written(codec, tasks) == before[Key(codec, last) := Value(codec, last)];
      hide Written;
      WrittenSize(codec, front);
      if |Written(codec, tasks)| == |tasks| {
        assert Key(codec, last) !in before;
        forall i | 0 <= i < |front| ensures front[i].pipelineUid != last.pipelineUid {
          WrittenKeys(codec, front, i);
        }
      }
    }
  }

  lemma {:induction false} WrittenKeys(codec: UlidCodec, tasks: seq<IndexingTask>, i: nat)
    requires i < |tasks|
    ensures Key(codec, tasks[i]) in Written(codec, tasks)
  {
    if i < |tasks| - 1 { WrittenKeys(codec, tasks[..|tasks| - 1], i); }
  }

  lemma {:induction false} DistinctKeysCount(keys: seq<string>, s: set<string>)
    requires forall i, j :: 0 <= i < j < |keys| ==> keys[i] != keys[j]
    requires forall k :: k in keys <==> k in s
    ensures |keys| == |s|
  {
    if keys == [] {
      assert s == {};
    } else {
      var front, last := keys[..|keys| - 1], keys[|keys| - 1];
      assert keys == front + [last];
      assert forall k :: k in front <==> k in s - {last};
      DistinctKeysCount(front, s - {last});
    }
  }

  lemma ReadBackNeedsDistinct(codec: UlidCodec, tasks: seq<IndexingTask>, state: KeyValues,
                              keys: seq<string>)
    requires codec.Valid() && ReadBack(codec, tasks, state, keys)
    requires forall i :: 0 <= i < |keys| ==> keys[i] in SetTasks(codec, tasks, state)
    requires multiset(ParseTasks(codec, keys, SetTasks(codec, tasks, state)))
             == multiset(NormalizedAll(tasks))
    ensures DistinctUids(tasks)
  {
    var parsed := ParseTasks(codec, keys, SetTasks(codec, tasks, state));
    ReadBackKeys(codec, tasks, state, keys);
    ParseTasksLength(codec, keys, SetTasks(codec, tasks, state));
    DistinctKeysCount(keys, Written(codec, tasks).Keys);
    WrittenSize(codec, tasks);
    assert |multiset(parsed)| == |multiset(NormalizedAll(tasks))|;
  }

  lemma ReadBackNeedsPrintable(codec: UlidCodec, tasks: seq<IndexingTask>, state: KeyValues,
                               keys: seq<string>, i: nat)
    requires codec.Valid() && ReadBack(codec, tasks, state, keys) && DistinctUids(tasks)
    requires forall j :: 0 <= j < |keys| ==> keys[j] in SetTasks(codec, tasks, state)
    requires i < |tasks|
    requires Normalized(tasks[i]) in ParseTasks(codec, keys, SetTasks(codec, tasks, state))
    ensures Printable(tasks[i])
  {
    var state' := SetTasks(codec, tasks, state);
    ReadBackKeys(codec, tasks, state, keys);
    var key := ParseTasksOrigin(codec, keys, state', Normalized(tasks[i]));
    var j := WrittenOrigin(codec, tasks, key);
    SetTasksEntries(codec, tasks, state, key);
    ParseTaskUid(codec, tasks[j], state'[key]);
    assert i == j;
    RoundTripIffPrintable(codec, tasks[i]);
  }

  // ---------------------------------------------------------------------------
  // Main result

  /**
   Writing tasks over any prior node state and parsing them back yields exactly those tasks, with
   their shard ids sorted, if and only if their pipeline uids are distinct and they are printable.
   */
  lemma WriteThenParse(codec: UlidCodec, tasks: seq<IndexingTask>, state: KeyValues, keys: seq<string>)
    requires codec.Valid() && IterPrefix(keys, SetTasks(codec, tasks, state))
    ensures forall i :: 0 <= i < |keys| ==> keys[i] in SetTasks(codec, tasks, state)
    ensures multiset(ParseTasks(codec, keys, SetTasks(codec, tasks, state)))
            == multiset(NormalizedAll(tasks))
            <==> DistinctUids(tasks) && forall i :: 0 <= i < |tasks| ==> Printable(tasks[i])
  {
    ReadBackKeys(codec, tasks, state, keys);
    var parsed := ParseTasks(codec, keys, SetTasks(codec, tasks, state));
    if DistinctUids(tasks) && forall i :: 0 <= i < |tasks| ==> Printable(tasks[i]) {
      DistinctPrintableReadBack(codec, tasks, state, keys);
    }
    if multiset(parsed) == multiset(NormalizedAll(tasks)) {
      ReadBackNeedsDistinct(codec, tasks, state, keys);
      forall i | 0 <= i < |tasks| ensures Printable(tasks[i]) {
        assert NormalizedAll(tasks)[i] in multiset(NormalizedAll(tasks));
        assert Normalized(tasks[i]) in multiset(parsed);
        ReadBackNeedsPrintable(codec, tasks, state, keys, i);
      }
    }
  }

  // ---------------------------------------------------------------------------
  // The writing loop as the source performs it

  function TaskKeys(state: KeyValues): set<string> {
    set k | k in state && IsTaskKey(k)
  }

  lemma OverwrittenThenPruned(codec: UlidCodec, tasks: seq<IndexingTask>, state: KeyValues)
    ensures (state + Written(codec, tasks)) - (TaskKeys(state) - Written(codec, tasks).Keys)
            == SetTasks(codec, tasks, state)
  {
    var written := Written(codec, tasks);
    var result := (state + written) - (TaskKeys(state) - written.Keys);
    assert result.Keys == SetTasks(codec, tasks, state).Keys;
  }

  class NodeStateCell {
    var keyValues: KeyValues

    constructor (keyValues: KeyValues)
      ensures this.keyValues == keyValues
    {
      this.keyValues := keyValues;
    }

    /** set_indexing_tasks_in_node_state */
    method SetIndexingTasks(codec: UlidCodec, tasks: seq<IndexingTask>)
      modifies this
      ensures keyValues == SetTasks(codec, tasks, old(keyValues))
    {
      hide TaskKeys, Key, Value, SetTasks;
      var obsolete := TaskKeys(keyValues);
      ghost var before := keyValues;
      for i := 0 to |tasks|
        invariant obsolete == TaskKeys(before) - Written(codec, tasks[..i]).Keys
        invariant keyValues == before + Written(codec, tasks[..i])
      {
        assert tasks[..i + 1][..i] == tasks[..i];
        var key := Key(codec, tasks[i]);
        keyValues := keyValues[key := Value(codec, tasks[i])];
        obsolete := obsolete - {key};
      }
      assert tasks[..|tasks|] == tasks;
      OverwrittenThenPruned(codec, tasks, before);
      RemoveKeys(obsolete);
    }

    /** The last loop of set_indexing_tasks_in_node_state. */
    method RemoveKeys(obsolete: set<string>)
      modifies this
      ensures keyValues == old(keyValues) - obsolete
    {
      var keys := obsolete;
      while keys != {}
        invariant keys <= obsolete
        invariant keyValues == old(keyValues) - (obsolete - keys)
        decreases |keys|
      {
        var key :| key in keys;
        keyValues := keyValues - {key};
        keys := keys - {key};
      }
    }
  }
}
