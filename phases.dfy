/**
 The instrumented pytest hooks and the key under which each one stores its
 duration. Three hooks run once per session and use their own name as the
 key; the other three run once per file, item or collector and append a
 discriminator to a fixed prefix.
 */
module Phases {
  import opened Wrappers

  /** One occurrence of an instrumented hook, with its discriminator. */
  datatype Phase =
    | SessionStart
    | Collection
    | CollectFile(path: string)
    | ItemCollected(name: string)
    | RunTestLoop
    | MakeCollectReport(nodeId: string)

  const SessionStartKey: string := "pytest_sessionstart"
  const CollectionKey: string := "pytest_collection"
  const RunTestLoopKey: string := "pytest_runtestloop"
  const CollectFilePrefix: string := "pytest_collect_file:"
  const ItemCollectedPrefix: string := "pytest_itemcollected\t"
  const MakeCollectReportPrefix: string := "pytest_make_collect_report\t"

  /** The key a hook writes into the duration table. */
  function Key(p: Phase): string {
    match p
    case SessionStart => SessionStartKey
    case Collection => CollectionKey
    case CollectFile(path) => CollectFilePrefix + path
    case ItemCollected(name) => ItemCollectedPrefix + name
    case RunTestLoop => RunTestLoopKey
    case MakeCollectReport(nodeId) => MakeCollectReportPrefix + nodeId
  }

  predicate HasPrefix(s: string, prefix: string) {
    |prefix| <= |s| && s[..|prefix|] == prefix
  }

  /** Recovers the hook occurrence from a key; the inverse of `Key`. */
  function ParseKey(s: string): Option<Phase> {
    if s == SessionStartKey then Some(SessionStart)
    else if s == CollectionKey then Some(Collection)
    else if s == RunTestLoopKey then Some(RunTestLoop)
    else if HasPrefix(s, CollectFilePrefix) then Some(CollectFile(s[|CollectFilePrefix|..]))
    else if HasPrefix(s, ItemCollectedPrefix) then Some(ItemCollected(s[|ItemCollectedPrefix|..]))
    else if HasPrefix(s, MakeCollectReportPrefix) then Some(MakeCollectReport(s[|MakeCollectReportPrefix|..]))
    else None
  }

  /** Every key names its hook and its discriminator unambiguously. */
  lemma KeyRoundTrip(p: Phase)
    ensures ParseKey(Key(p)) == Some(p)
  {
    var k := Key(p);
    match p
    case CollectFile(path) =>
      assert k[..|CollectFilePrefix|] == CollectFilePrefix;
      assert k[|CollectFilePrefix|..] == path;
    case ItemCollected(name) =>
      assert k[..|ItemCollectedPrefix|] == ItemCollectedPrefix;
      assert k[7] == 'i' != CollectFilePrefix[7];
      assert k[|ItemCollectedPrefix|..] == name;
    case MakeCollectReport(nodeId) =>
      assert k[..|MakeCollectReportPrefix|] == MakeCollectReportPrefix;
      assert k[7] == 'm' != CollectFilePrefix[7];
      assert k[7] != ItemCollectedPrefix[7];
      assert k[|MakeCollectReportPrefix|..] == nodeId;
    case _ =>
  }

  /** Distinct hook occurrences write distinct keys. */
  lemma KeyInjective(p: Phase, q: Phase)
    ensures Key(p) == Key(q) <==> p == q
  {
    KeyRoundTrip(p);
    KeyRoundTrip(q);
  }
}
