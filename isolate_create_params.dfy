/** The `CreateParams` builder of a new isolate (`isolate_create_params.rs`).
    Each builder method takes the parameters by value, sets some fields and
    returns them, so each is a function from old to new parameters.  The raw
    half is what the engine reads; the allocations half owns the memory the
    raw pointers lead to.  An allocation is its address and its contents;
    the addresses at which new memory lands are parameters. */
module IsolateCreateParams {
  import opened Outcomes
  import opened ScopeChain

  /** `c_int`, the type of `raw_size` and of the wrapper type indices. */
  const INT_MAX: int := 0x7fff_ffff
  const INT_MIN: int := -0x8000_0000
  newtype CInt = x: int | INT_MIN <= x <= INT_MAX

  newtype Byte = x: int | 0 <= x < 0x100

  /** `Allocation<T>`: memory owned by the parameters, at `addr`. */
  datatype Allocation<T> = Allocation(addr: Ptr, contents: T)

  /** `raw::StartupData`: a pointer to the snapshot bytes and their count. */
  datatype StartupData = StartupData(data: Ptr, rawSize: CInt)

  /** The fields of `raw::CreateParams` that the builder touches.  A pointer
      field holds the address of the allocation it leads to (`NULL` when
      unset); `arrayBufferAllocatorShared` is the shared pointer's target. */
  datatype RawCreateParams = RawCreateParams(
    snapshotBlob: Ptr,
    arrayBufferAllocatorShared: Ptr,
    externalReferences: Ptr,
    allowAtomicsWait: bool,
    onlyTerminateInSafeScope: bool,
    embedderWrapperTypeIndex: CInt,
    embedderWrapperObjectIndex: CInt)

  /** `CreateParamAllocations`. */
  datatype Allocations = Allocations(
    snapshotBlobData: Option<Allocation<seq<Byte>>>,
    snapshotBlobHeader: Option<Allocation<StartupData>>,
    externalReferences: Option<Allocation<seq<int>>>)

  datatype CreateParams = CreateParams(raw: RawCreateParams, allocations: Allocations)

  datatype ParamsFault =
      /** "unexpected null pointer in external references list". */
    | UnexpectedNull
      /** Indexing the first byte of empty snapshot data. */
    | IndexOutOfBounds
      /** The `unwrap` of a snapshot length that does not fit `c_int`. */
    | SizeOverflow

  // ---------------------------------------------------------------------
  // Snapshot blob

  /** `raw::StartupData::boxed_header`: the header of snapshot data
      allocated at `at`. */
  function BoxedHeader(at: Ptr, data: seq<Byte>): (r: Outcome<StartupData, ParamsFault>)
    ensures r.Ok? <==> 0 < |data| <= INT_MAX
    ensures |data| == 0 ==> r == Panic(IndexOutOfBounds)
    ensures |data| > INT_MAX ==> r == Panic(SizeOverflow)
    ensures r.Ok? ==> r.value.data == at && r.value.rawSize as int == |data|
  {
    if |data| == 0 then Panic(IndexOutOfBounds)
    else if |data| > INT_MAX then Panic(SizeOverflow)
    else Ok(StartupData(at, |data| as CInt))
  }

  /** `snapshot_blob`: the data is kept at `at`, its header at `headerAt`,
      and the raw parameters point at the header. */
  function SnapshotBlob(p: CreateParams, data: seq<Byte>, at: Ptr, headerAt: Ptr): (r: Outcome<CreateParams, ParamsFault>)
    ensures r.Ok? <==> 0 < |data| <= INT_MAX
    ensures r.Ok? ==> SnapshotHeld(r.value, data) && r.value.raw.snapshotBlob == headerAt
    ensures r.Ok? ==>
              r.value.raw == p.raw.(snapshotBlob := headerAt)
              && r.value.allocations.externalReferences == p.allocations.externalReferences
  {
    match BoxedHeader(at, data)
    case Panic(f) => Panic(f)
    case Ok(header) =>
      Ok(CreateParams(
        p.raw.(snapshotBlob := headerAt),
        p.allocations.(snapshotBlobData := Some(Allocation(at, data)),
                       snapshotBlobHeader := Some(Allocation(headerAt, header)))))
  }

  /** The parameters own `data` and a header for it, and the raw snapshot
      pointer leads to that header, whose pointer and size describe the
      data exactly. */
  predicate SnapshotHeld(p: CreateParams, data: seq<Byte>) {
    && p.allocations.snapshotBlobData.Some?
    && p.allocations.snapshotBlobHeader.Some?
    && var d := p.allocations.snapshotBlobData.value;
       var h := p.allocations.snapshotBlobHeader.value;
       && d.contents == data
       && p.raw.snapshotBlob == h.addr
       && h.contents.data == d.addr
       && h.contents.rawSize as int == |d.contents|
  }

  // ---------------------------------------------------------------------
  // External references

  /** Index of the last non-zero entry, searching from the end
      (`enumerate().rev().find_map(...)`). */
  function LastNonNull(s: seq<int>): (r: Option<nat>)
    ensures r.None? <==> forall i :: 0 <= i < |s| ==> s[i] == 0
    ensures r.Some? ==> r.value < |s| && s[r.value] != 0
                        && forall i :: r.value < i < |s| ==> s[i] == 0
  {
    if |s| == 0 then None
    else if s[|s| - 1] != 0 then Some(|s| - 1)
    else LastNonNull(s[..|s| - 1])
  }

  /** Index of the first zero entry (`enumerate().find_map(...)`). */
  function FirstNull(s: seq<int>): (r: Option<nat>)
    ensures r.None? <==> forall i :: 0 <= i < |s| ==> s[i] != 0
    ensures r.Some? ==> r.value < |s| && s[r.value] == 0
                        && forall i :: 0 <= i < r.value ==> s[i] != 0
  {
    if |s| == 0 then None
    else if s[0] == 0 then Some(0)
    else
      var r := FirstNull(s[1..]);
      if r.None? then None else Some(r.value + 1)
  }

  /** `external_references`.  All-zero (or empty) lists clear the setting;
      a list without a zero is copied, with a terminating zero, to `copyAt`;
      a list whose zeros all follow its last non-zero entry is kept as it is,
      at `at`; any other list has a zero before a non-zero entry, which
      panics. */
  function ExternalReferences(p: CreateParams, s: seq<int>, at: Ptr, copyAt: Ptr): (r: Outcome<CreateParams, ParamsFault>)
    requires at != NULL && copyAt != NULL
    ensures r.Panic? ==> r.fault == UnexpectedNull
    ensures r.Ok? ==>
              && r.value.raw == p.raw.(externalReferences := r.value.raw.externalReferences)
              && r.value.allocations == p.allocations.(externalReferences := r.value.allocations.externalReferences)
  {
    match (LastNonNull(s), FirstNull(s))
    case (None, _) =>
      Ok(CreateParams(p.raw.(externalReferences := NULL), p.allocations.(externalReferences := None)))
    case (_, None) =>
      Ok(CreateParams(p.raw.(externalReferences := copyAt),
                      p.allocations.(externalReferences := Some(Allocation(copyAt, s + [0])))))
    case (Some(i1), Some(i2)) =>
      if i1 + 1 == i2 then
        Ok(CreateParams(p.raw.(externalReferences := at),
                        p.allocations.(externalReferences := Some(Allocation(at, s)))))
      else Panic(UnexpectedNull)
  }

  /** A zero comes before some non-zero entry. */
  predicate InteriorNull(s: seq<int>) {
    exists i, j :: 0 <= i < j < |s| && s[i] == 0 && s[j] != 0
  }

  /** A list the engine can read: it has a non-zero entry, no zero before
      its last non-zero entry, and ends with a zero. */
  predicate NullTerminated(l: seq<int>) {
    && (exists i :: 0 <= i < |l| && l[i] != 0)
    && !InteriorNull(l)
    && l[|l| - 1] == 0
  }

  /** What the raw external-references pointer leads to: nothing, or a list
      owned by the parameters. */
  predicate ReferencesHeld(p: CreateParams) {
    match p.allocations.externalReferences
    case None => p.raw.externalReferences == NULL
    case Some(a) => p.raw.externalReferences == a.addr && a.addr != NULL
  }

  /** The setter panics exactly on a list with an interior zero. */
  lemma {:induction false} ExternalReferencesPanics(p: CreateParams, s: seq<int>, at: Ptr, copyAt: Ptr)
    requires at != NULL && copyAt != NULL
    ensures ExternalReferences(p, s, at, copyAt).Panic? <==> InteriorNull(s)
  {
    var last, first := LastNonNull(s), FirstNull(s);
    if last.Some? && first.Some? {
      var i1, i2 := last.value, first.value;
      if i1 + 1 < |s| {
        assert s[i1 + 1] == 0;
      }
      if i1 + 1 != i2 {
        assert s[i2] == 0 && s[i1] != 0 && i2 < i1;
      } else {
        forall i, j | 0 <= i < j < |s| && s[i] == 0
          ensures s[j] == 0
        {
          assert i2 <= i;
        }
      }
    }
  }

  /** An empty or all-zero list clears the setting and owns nothing. */
  lemma ExternalReferencesEmpty(p: CreateParams, s: seq<int>, at: Ptr, copyAt: Ptr)
    requires at != NULL && copyAt != NULL
    requires forall i :: 0 <= i < |s| ==> s[i] == 0
    ensures var r := ExternalReferences(p, s, at, copyAt);
      r.Ok? && r.value.raw.externalReferences == NULL && r.value.allocations.externalReferences.None?
  {
  }

  /** A non-empty list without a zero is stored with a zero appended. */
  lemma ExternalReferencesAppends(p: CreateParams, s: seq<int>, at: Ptr, copyAt: Ptr)
    requires at != NULL && copyAt != NULL
    requires 0 < |s| && forall i :: 0 <= i < |s| ==> s[i] != 0
    ensures var r := ExternalReferences(p, s, at, copyAt);
      && r.Ok? && r.value.allocations.externalReferences == Some(Allocation(copyAt, s + [0]))
      && r.value.raw.externalReferences == copyAt
  {
    assert s[0] != 0;
  }

  /** A list with a non-zero entry whose zeros all come after its non-zero
      entries, and that has a zero, is stored as it is. */
  lemma ExternalReferencesKeeps(p: CreateParams, s: seq<int>, at: Ptr, copyAt: Ptr)
    requires at != NULL && copyAt != NULL
    requires NullTerminated(s)
    ensures var r := ExternalReferences(p, s, at, copyAt);
      && r.Ok? && r.value.allocations.externalReferences == Some(Allocation(at, s))
      && r.value.raw.externalReferences == at
  {
    ExternalReferencesPanics(p, s, at, copyAt);
    var last, first := LastNonNull(s), FirstNull(s);
    assert s[|s| - 1] == 0;
    assert last.Some? && first.Some?;
  }

  /** Whatever the setter stores is null or a list the engine can read, and
      the raw pointer leads to the stored list. */
  lemma {:induction false} ExternalReferencesStored(p: CreateParams, s: seq<int>, at: Ptr, copyAt: Ptr)
    requires at != NULL && copyAt != NULL
    ensures var r := ExternalReferences(p, s, at, copyAt);
      r.Ok? ==> ReferencesHeld(r.value)
                && (r.value.allocations.externalReferences.Some? ==>
                      NullTerminated(r.value.allocations.externalReferences.value.contents))
  {
    var r := ExternalReferences(p, s, at, copyAt);
    ExternalReferencesPanics(p, s, at, copyAt);
    var last, first := LastNonNull(s), FirstNull(s);
    if r.Ok? && last.Some? {
      var l := r.value.allocations.externalReferences.value.contents;
      if first.None? {
        assert l == s + [0];
        assert l[last.value] != 0;
        forall i | 0 <= i < |l| - 1
          ensures l[i] != 0
        {
          assert l[i] == s[i];
        }
      } else {
        assert l == s;
        assert l[last.value] != 0;
        assert l[first.value] == 0 && last.value < first.value;
        assert l[|l| - 1] == 0;
      }
    }
  }

  // ---------------------------------------------------------------------
  // Scalar setters and finalisation

  /** `array_buffer_allocator`. */
  function ArrayBufferAllocator(p: CreateParams, allocator: Ptr): (r: CreateParams)
    ensures r.raw.arrayBufferAllocatorShared == allocator
    ensures r == p.(raw := r.raw) && r.raw == p.raw.(arrayBufferAllocatorShared := allocator)
  {
    p.(raw := p.raw.(arrayBufferAllocatorShared := allocator))
  }

  /** `allow_atomics_wait`. */
  function AllowAtomicsWait(p: CreateParams, value: bool): (r: CreateParams)
    ensures r.raw.allowAtomicsWait == value
    ensures r == p.(raw := r.raw) && r.raw == p.raw.(allowAtomicsWait := value)
  {
    p.(raw := p.raw.(allowAtomicsWait := value))
  }

  /** `only_terminate_in_safe_scope`. */
  function OnlyTerminateInSafeScope(p: CreateParams, value: bool): (r: CreateParams)
    ensures r.raw.onlyTerminateInSafeScope == value
    ensures r == p.(raw := r.raw) && r.raw == p.raw.(onlyTerminateInSafeScope := value)
  {
    p.(raw := p.raw.(onlyTerminateInSafeScope := value))
  }

  /** `embedder_wrapper_type_info_offsets`. */
  function EmbedderWrapperTypeInfoOffsets(p: CreateParams, typeIndex: CInt, objectIndex: CInt): (r: CreateParams)
    ensures r.raw.embedderWrapperTypeIndex == typeIndex && r.raw.embedderWrapperObjectIndex == objectIndex
    ensures r == p.(raw := r.raw)
    ensures r.raw == p.raw.(embedderWrapperTypeIndex := typeIndex, embedderWrapperObjectIndex := objectIndex)
  {
    p.(raw := p.raw.(embedderWrapperTypeIndex := typeIndex, embedderWrapperObjectIndex := objectIndex))
  }

  /** `set_fallback_defaults`, with `defaultAllocator` what
      `new_default_allocator` returns. */
  function SetFallbackDefaults(p: CreateParams, defaultAllocator: Ptr): (r: CreateParams)
    requires defaultAllocator != NULL
    ensures r.raw.arrayBufferAllocatorShared != NULL
    ensures p.raw.arrayBufferAllocatorShared != NULL ==> r == p
    ensures p.raw.arrayBufferAllocatorShared == NULL ==>
              r == p.(raw := p.raw.(arrayBufferAllocatorShared := defaultAllocator))
  {
    if p.raw.arrayBufferAllocatorShared == NULL then ArrayBufferAllocator(p, defaultAllocator) else p
  }

  /** `finalize`: apply the fallback defaults and split the parameters into
      the raw half, handed to the engine, and the allocations it must keep
      alive. */
  function Finalize(p: CreateParams, defaultAllocator: Ptr): (r: (RawCreateParams, Allocations))
    requires defaultAllocator != NULL
    ensures r.0.arrayBufferAllocatorShared != NULL
    ensures r.0 == p.raw.(arrayBufferAllocatorShared := r.0.arrayBufferAllocatorShared)
    ensures p.raw.arrayBufferAllocatorShared != NULL ==> r.0 == p.raw
    ensures r.1 == p.allocations
  {
    var q := SetFallbackDefaults(p, defaultAllocator);
    (q.raw, q.allocations)
  }

  /** What the raw half handed to the engine points at is still owned by
      the allocations `finalize` returns: the snapshot header and data, and
      the external-references list. */
  lemma FinalizeKeepsAllocations(p: CreateParams, defaultAllocator: Ptr, data: seq<Byte>)
    requires defaultAllocator != NULL
    ensures var r := Finalize(p, defaultAllocator);
            SnapshotHeld(p, data) ==> SnapshotHeld(CreateParams(r.0, r.1), data)
    ensures var r := Finalize(p, defaultAllocator);
            ReferencesHeld(p) ==> ReferencesHeld(CreateParams(r.0, r.1))
  {
  }

  /** Applying the fallback defaults twice is applying them once, and
      `finalize` keeps an allocator set explicitly. */
  lemma FallbackDefaultsIdempotent(p: CreateParams, a: Ptr, b: Ptr)
    requires a != NULL && b != NULL
    ensures SetFallbackDefaults(SetFallbackDefaults(p, a), b) == SetFallbackDefaults(p, a)
    ensures p.raw.arrayBufferAllocatorShared != NULL ==>
              Finalize(p, a).0.arrayBufferAllocatorShared == p.raw.arrayBufferAllocatorShared
  {
  }

  /** The builder steps keep what earlier steps set up: the snapshot survives
      every other setter, and the external references survive a snapshot. */
  lemma SettersKeepSnapshot(p: CreateParams, data: seq<Byte>, b: bool, t: CInt, o: CInt, s: seq<int>, at: Ptr, copyAt: Ptr)
    requires SnapshotHeld(p, data) && at != NULL && copyAt != NULL
    ensures SnapshotHeld(AllowAtomicsWait(p, b), data)
    ensures SnapshotHeld(OnlyTerminateInSafeScope(p, b), data)
    ensures SnapshotHeld(EmbedderWrapperTypeInfoOffsets(p, t, o), data)
    ensures ExternalReferences(p, s, at, copyAt).Ok? ==>
              SnapshotHeld(ExternalReferences(p, s, at, copyAt).value, data)
  {
  }
}
