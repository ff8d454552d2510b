/** Choosing and calling a UUID generator, for one UUID and for a batch
    (src/uuid-generator.js:145-276). The generators themselves belong to the
    `uuid` package and are parameters here: a `Library` value says what each
    call returns, `None` standing for a call that throws. */
module Generation {
  import opened Wrappers
  import opened Strings
  import UuidFormat

  /** The versions the version selector offers. */
  datatype Version = V1 | V3 | V4 | V5 | V6 | V7

  /** The selector value of each version. */
  function Label(v: Version): string
  {
    match v
    case V1 => "v1"
    case V3 => "v3"
    case V4 => "v4"
    case V5 => "v5"
    case V6 => "v6"
    case V7 => "v7"
  }

  /** The `switch (version)`: each label selects its version, any other
      value falls to the `default` branch, which generates a v4 UUID. */
  function VersionOf(select: string): Version
  {
    if select == "v1" then V1
    else if select == "v3" then V3
    else if select == "v5" then V5
    else if select == "v6" then V6
    else if select == "v7" then V7
    else V4
  }

  /** Whether the version hashes a namespace and a name (v3 and v5). */
  predicate IsNameBased(v: Version)
  {
    v == V3 || v == V5
  }

  /** The DNS namespace of RFC 4122, used when no usable namespace is given. */
  const DnsNamespace: string := "6ba7b810-9dad-11d1-80b4-00c04fd430c8"

  /** The name hashed for a single v3/v5 UUID without namespace or name. */
  const DefaultName: string := "default"

  /** Largest accepted batch size. */
  const MaxCount: int := 1000000

  /** The `uuid` package's generators. `unnamed(v, tick)` is the result of
      `uuidv1()`, `uuidv4()`, `uuidv6()` or `uuidv7()`; their clock and
      random state is abstracted by `tick`, the index of the call within one
      operation. `named(v, namespace, name)` is the result of `uuidv3` or
      `uuidv5`, which depend on their arguments only. `None`: the call
      throws. */
  datatype Library = Library(
    unnamed: (Version, nat) -> Option<string>,
    named: (Version, string, string) -> Option<string>)

  /** The name hashed by the `i`-th entry of a batch without namespace or
      name: `batch-${i}`. */
  function BatchName(i: nat): string
  {
    "batch-" + DecimalString(i)
  }

  /** The v3/v5 branch: with a namespace and a name, hash them, and if that
      throws hash the namespace as a name in the DNS namespace; without
      either, hash `fallbackName` in the DNS namespace. */
  function NameBased(lib: Library, v: Version, namespace: string, name: string, fallbackName: string): Option<string>
  {
    if namespace != "" && name != "" then
      match lib.named(v, namespace, name)
      case Some(u) => Some(u)
      case None => lib.named(v, DnsNamespace, namespace)
    else lib.named(v, DnsNamespace, fallbackName)
  }

  /** One trip through the `switch (version)`. */
  function GenerateOne(lib: Library, select: string, namespace: string, name: string, fallbackName: string, tick: nat): Option<string>
  {
    var v := VersionOf(select);
    if IsNameBased(v) then NameBased(lib, v, namespace, name, fallbackName)
    else lib.unnamed(v, tick)
  }

  /** `generateSingleUUID`'s choice: the fallback name is `default`. */
  function Single(lib: Library, select: string, namespace: string, name: string): Option<string>
  {
    GenerateOne(lib, select, namespace, name, DefaultName, 0)
  }

  /** The batch size check: `parseInt` gave a number (`Some`) between 1 and
      1000000. */
  predicate ValidCount(count: Option<int>)
  {
    count.Some? && 1 <= count.value <= MaxCount
  }

  /** The first `n` entries of a batch, in order; `None` once any entry's
      generator throws, which abandons the whole batch. */
  function Batch(lib: Library, select: string, namespace: string, name: string, n: nat): (r: Option<seq<string>>)
    ensures r.Some? ==> |r.value| == n
  {
    if n == 0 then Some([])
    else
      match Batch(lib, select, namespace, name, n - 1)
      case None => None
      case Some(us) =>
        match GenerateOne(lib, select, namespace, name, BatchName(n - 1), n - 1)
        case None => None
        case Some(u) => Some(us + [u])
  }

  /** The loop of `generateBatchUUIDs`: `count` trips through the switch,
      each result pushed in turn; a throw ends the loop. */
  method CollectBatch(lib: Library, select: string, namespace: string, name: string, count: nat)
    returns (uuids: Option<seq<string>>)
    ensures uuids == Batch(lib, select, namespace, name, count)
  {
    var collected: seq<string> := [];
    var i := 0;
    while i < count
      invariant 0 <= i <= count
      invariant Batch(lib, select, namespace, name, i) == Some(collected)
    {
      var uuid := GenerateOne(lib, select, namespace, name, BatchName(i), i);
      if uuid.None? {
        BatchFailurePersists(lib, select, namespace, name, i + 1, count);
        return None;
      }
      collected := collected + [uuid.value];
      i := i + 1;
    }
    return Some(collected);
  }

  // ---------------------------------------------------------------------------
  // Properties
  // ---------------------------------------------------------------------------

  /** The selector reads back every label, and anything that is not a label
      generates v4. */
  lemma VersionOfLabel(v: Version, select: string)
    ensures VersionOf(Label(v)) == v
    ensures (forall w :: Label(w) != select) ==> VersionOf(select) == V4
  {
    if forall w :: Label(w) != select {
      assert Label(V1) != select && Label(V3) != select && Label(V5) != select;
      assert Label(V6) != select && Label(V7) != select;
    }
  }

  /** Which arguments the v3/v5 branch ends up hashing: the given pair if
      that call succeeds, otherwise the namespace as a name in the DNS
      namespace; without both inputs, the fallback name in the DNS
      namespace. The branch's result is that call's result. */
  lemma NameBasedArguments(lib: Library, v: Version, namespace: string, name: string, fallbackName: string)
    ensures namespace != "" && name != "" && lib.named(v, namespace, name).Some? ==>
      NameBased(lib, v, namespace, name, fallbackName) == lib.named(v, namespace, name)
    ensures namespace != "" && name != "" && lib.named(v, namespace, name).None? ==>
      NameBased(lib, v, namespace, name, fallbackName) == lib.named(v, DnsNamespace, namespace)
    ensures (namespace == "" || name == "") ==>
      NameBased(lib, v, namespace, name, fallbackName) == lib.named(v, DnsNamespace, fallbackName)
    ensures NameBased(lib, v, namespace, name, fallbackName).None? ==>
      (namespace != "" && name != "" && lib.named(v, DnsNamespace, namespace).None?) ||
      ((namespace == "" || name == "") && lib.named(v, DnsNamespace, fallbackName).None?)
  {
  }

  /** A generator that accepts the DNS namespace with every name makes the
      v3/v5 branch total: the fallback catches every rejected namespace. */
  lemma NameBasedNeverFails(lib: Library, v: Version, namespace: string, name: string, fallbackName: string)
    requires forall n :: lib.named(v, DnsNamespace, n).Some?
    ensures NameBased(lib, v, namespace, name, fallbackName).Some?
  {
  }

  /** Distinct batch indices give distinct fallback names. */
  lemma BatchNamesDistinct(i: nat, j: nat)
    requires i != j
    ensures BatchName(i) != BatchName(j)
  {
    if BatchName(i) == BatchName(j) {
      assert BatchName(i)[6..] == DecimalString(i) && BatchName(j)[6..] == DecimalString(j);
      DecimalStringInjective(i, j);
    }
  }

  /** A batch succeeds exactly when every entry does; it then has one UUID
      per entry, the `i`-th being the `i`-th trip through the switch. */
  lemma {:induction false} BatchEntries(lib: Library, select: string, namespace: string, name: string, n: nat)
    ensures Batch(lib, select, namespace, name, n).Some? <==>
      forall i :: 0 <= i < n ==> GenerateOne(lib, select, namespace, name, BatchName(i), i).Some?
    ensures Batch(lib, select, namespace, name, n).Some? ==>
      var us := Batch(lib, select, namespace, name, n).value;
      |us| == n && forall i :: 0 <= i < n ==> Some(us[i]) == GenerateOne(lib, select, namespace, name, BatchName(i), i)
  {
    if n > 0 {
      BatchEntries(lib, select, namespace, name, n - 1);
    }
  }

  /** A batch that failed stays failed when it is asked for more entries. */
  lemma {:induction false} BatchFailurePersists(lib: Library, select: string, namespace: string, name: string, m: nat, n: nat)
    requires m <= n && Batch(lib, select, namespace, name, m).None?
    ensures Batch(lib, select, namespace, name, n).None?
    decreases n - m
  {
    if m < n {
      BatchFailurePersists(lib, select, namespace, name, m, n - 1);
    }
  }

  /** A larger batch extends a smaller one: entry `i` does not depend on the
      batch size. */
  lemma {:induction false} BatchPrefix(lib: Library, select: string, namespace: string, name: string, m: nat, n: nat)
    requires m <= n && Batch(lib, select, namespace, name, n).Some?
    ensures Batch(lib, select, namespace, name, m).Some?
    ensures Batch(lib, select, namespace, name, m).value == Batch(lib, select, namespace, name, n).value[..m]
    decreases n - m
  {
    if m < n {
      BatchPrefix(lib, select, namespace, name, m, n - 1);
      var us := Batch(lib, select, namespace, name, n - 1).value;
      assert Batch(lib, select, namespace, name, n).value[..n - 1] == us;
    }
  }

  /** A v3/v5 batch given both a namespace and a name hashes the same
      arguments every time: all its entries are the same UUID. */
  lemma BatchRepeatsNamedUuid(lib: Library, select: string, namespace: string, name: string, n: nat)
    requires IsNameBased(VersionOf(select)) && namespace != "" && name != ""
    requires Batch(lib, select, namespace, name, n).Some?
    ensures forall i, j :: 0 <= i < n && 0 <= j < n ==>
      Batch(lib, select, namespace, name, n).value[i] == Batch(lib, select, namespace, name, n).value[j]
  {
    BatchEntries(lib, select, namespace, name, n);
  }

  /** The names `batch-${i}` of the first `n` entries. */
  function BatchNames(n: nat): set<string>
  {
    set i | 0 <= i < n :: BatchName(i)
  }

  /** Without a namespace or a name, a v3/v5 batch hashes `batch-0`,
      `batch-1`, ... in the DNS namespace: if the hash separates these
      names, the batch's entries are pairwise distinct. */
  lemma BatchDefaultNamesDistinct(lib: Library, select: string, namespace: string, name: string, n: nat)
    requires IsNameBased(VersionOf(select)) && (namespace == "" || name == "")
    requires forall a, b :: a in BatchNames(n) && b in BatchNames(n) && a != b ==>
      lib.named(VersionOf(select), DnsNamespace, a) != lib.named(VersionOf(select), DnsNamespace, b)
    requires Batch(lib, select, namespace, name, n).Some?
    ensures forall i, j :: 0 <= i < j < n ==>
      Batch(lib, select, namespace, name, n).value[i] != Batch(lib, select, namespace, name, n).value[j]
  {
    BatchEntries(lib, select, namespace, name, n);
    forall i, j | 0 <= i < j < n
      ensures Batch(lib, select, namespace, name, n).value[i] != Batch(lib, select, namespace, name, n).value[j]
    {
      BatchNamesDistinct(i, j);
      assert BatchName(i) in BatchNames(n) && BatchName(j) in BatchNames(n);
    }
  }

  /** A library whose every successful call yields a canonical UUID string. */
  ghost predicate ProducesCanonical(lib: Library)
  {
    && (forall v, t :: lib.unnamed(v, t).Some? ==> UuidFormat.IsCanonical(lib.unnamed(v, t).value))
    && (forall v, ns, n :: lib.named(v, ns, n).Some? ==> UuidFormat.IsCanonical(lib.named(v, ns, n).value))
  }

  /** Every entry of a batch is one of the library's results. */
  lemma BatchCanonical(lib: Library, select: string, namespace: string, name: string, n: nat)
    requires ProducesCanonical(lib) && Batch(lib, select, namespace, name, n).Some?
    ensures forall i :: 0 <= i < n ==> UuidFormat.IsCanonical(Batch(lib, select, namespace, name, n).value[i])
  {
  }
}
