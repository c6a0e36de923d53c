/** Entity handles: a table of 64 chunk pointers, 512 slots of 0x70 bytes to a chunk. */
module HandleTable {
  import opened Common

  /** The readable bytes of the process; touching any other faults. */
  type Memory = map<nat, Byte>

  const CHUNK_TABLE_GLOBAL: nat := 0x032b3280
  const SLOT: nat := 0x70
  const SLOTS: nat := 512
  const CHUNKS: nat := 64
  const HANDLE_AT: nat := 0x10

  // ---------------------------------------------------------------- memory

  /** A little-endian load; nothing if it faults. */
  function Load(mem: Memory, at: nat, size: nat): Option<nat>
    decreases size
  {
    if size == 0 then Some(0)
    else
      var high := Load(mem, at + 1, size - 1);
      if at !in mem || high.None? then None else Some(mem[at] + 256 * high.value)
  }

  function Store(mem: Memory, at: nat, size: nat, value: nat): Memory
    decreases size
  {
    if size == 0 then mem else Store(mem[at := value % 256], at + 1, size - 1, value / 256)
  }

  function Limit(size: nat): nat { if size == 0 then 1 else 256 * Limit(size - 1) }

  lemma {:induction false} StoreOnlyThere(mem: Memory, at: nat, size: nat, value: nat, a: nat)
    requires a < at || at + size <= a
    ensures a in Store(mem, at, size, value) <==> a in mem
    ensures a in mem ==> Store(mem, at, size, value)[a] == mem[a]
    decreases size
  {
    if size > 0 { StoreOnlyThere(mem[at := value % 256], at + 1, size - 1, value / 256, a); }
  }

  lemma {:induction false} LoadStored(mem: Memory, at: nat, size: nat, value: nat)
    requires value < Limit(size)
    ensures Load(Store(mem, at, size, value), at, size) == Some(value)
    decreases size
  {
    if size > 0 {
      var mem' := mem[at := value % 256];
      LoadStored(mem', at + 1, size - 1, value / 256);
      StoreOnlyThere(mem', at + 1, size - 1, value / 256, at);
    }
  }

  lemma {:induction false} LoadElsewhere(mem: Memory, at: nat, size: nat, value: nat, b: nat, n: nat)
    requires b + n <= at || at + size <= b
    ensures Load(Store(mem, at, size, value), b, n) == Load(mem, b, n)
    decreases n
  {
    if n > 0 {
      StoreOnlyThere(mem, at, size, value, b);
      LoadElsewhere(mem, at, size, value, b + 1, n - 1);
    }
  }

  // ---------------------------------------------------------------- the lookup

  predicate Reserved(handle: U32) { handle == 0xffff_ffff || handle == 0xffff_fffe }

  function Index(handle: U32): nat { handle % 0x8000 }

  /** The chunk pointer for an index; nothing if reading it faults. */
  function Chunk(mem: Memory, server: nat, index: nat): Option<nat> {
    var table := Load(mem, server + CHUNK_TABLE_GLOBAL, 8);
    if table.None? || table.value == 0 then None else Load(mem, table.value + index / SLOTS * 8, 8)
  }

  function Slot(chunk: nat, index: nat): nat { chunk + index % SLOTS * SLOT }

  /** `resolve_entity_handle`; `server` is the base of the module, if it is loaded. */
  method ResolveEntityHandle(mem: Memory, server: Option<nat>, handle: U32) returns (entity: Option<nat>)
    ensures entity == Resolve(mem, server, handle)
  {
    hide Load;
    if handle == 0xffff_ffff || handle == 0xffff_fffe {
      return None;
    }
    if server.None? {
      return None;
    }
    var table := Load(mem, server.value + CHUNK_TABLE_GLOBAL, 8);
    if table.None? || table.value == 0 {
      return None;
    }
    var entryIndex := handle % 0x8000;
    var chunk := Load(mem, table.value + entryIndex / 512 * 8, 8);
    if chunk.None? || chunk.value == 0 {
      return None;
    }
    var entry := chunk.value + entryIndex % 512 * 0x70;
    if Load(mem, entry + 0x10, 4) != Some(handle) {
      return None;
    }
    var out := Load(mem, entry, 8);
    if out.None? || out.value == 0 {
      return None;
    }
    return out;
  }

  /** What a handle stands for: the pointer in its slot if the slot holds this very handle. */
  function Resolve(mem: Memory, server: Option<nat>, handle: U32): Option<nat> {
    if Reserved(handle) || server.None? then None else ResolveAt(mem, Chunk(mem, server.value, Index(handle)), handle)
  }

  function ResolveAt(mem: Memory, chunk: Option<nat>, handle: U32): Option<nat> {
    if chunk.None? || chunk.value == 0 then None
    else
      var slot := Slot(chunk.value, Index(handle));
      if Load(mem, slot + HANDLE_AT, 4) == Some(handle) && Load(mem, slot, 8).Some? && Load(mem, slot, 8) != Some(0)
      then Load(mem, slot, 8) else None
  }

  /** Four bytes are loaded with the low one first. */
  lemma LoadsFour(mem: Memory, at: nat)
    ensures Load(mem, at, 4).Some? <==> at in mem && at + 1 in mem && at + 2 in mem && at + 3 in mem
    ensures Load(mem, at, 4).Some? ==>
            Load(mem, at, 4).value == (mem[at] as int) + 0x100 * (mem[at + 1] as int) +
                                      0x1_0000 * (mem[at + 2] as int) + 0x100_0000 * (mem[at + 3] as int)
  {
    assert Load(mem, at + 3, 1).Some? <==> at + 3 in mem;
    var two := Load(mem, at + 2, 2);
    assert two.Some? ==> two.value == (mem[at + 2] as int) + 256 * (mem[at + 3] as int);
  }

  /** And eight are four and four. */
  lemma LoadsEight(mem: Memory, at: nat)
    ensures var low, high := Load(mem, at, 4), Load(mem, at + 4, 4);
            Load(mem, at, 8) == if low.Some? && high.Some? then Some(low.value + 0x1_0000_0000 * high.value) else None
  {
    LoadSplit(mem, at, 4, 4);
    assert Limit(4) == 256 * (256 * (256 * (256 * 1)));
  }

  lemma {:induction false} LoadSplit(mem: Memory, at: nat, m: nat, n: nat)
    ensures var low, high := Load(mem, at, m), Load(mem, at + m, n);
            Load(mem, at, m + n) == if low.Some? && high.Some? then Some(low.value + Limit(m) * high.value) else None
    decreases m
  {
    if m == 0 {
      assert Limit(0) == 1;
    } else {
      LoadSplit(mem, at + 1, m - 1, n);
      assert at + 1 + (m - 1) == at + m;
      var high := Load(mem, at + m, n);
      if high.Some? { Widen(Limit(m - 1), high.value); }
    }
  }

  lemma Widen(a: nat, b: nat)
    ensures 256 * (a * b) == (256 * a) * b
  {
  }

  /** A handle stands for an entity exactly if no reserved value is asked for and the reads go through:
      the table at its global, the chunk under the upper six of the low fifteen bits, this very handle 16
      bytes into the slot of 112 bytes under the lower nine, and the entity at the front of that slot. */
  lemma ResolvesExactly(mem: Memory, server: nat, handle: U32, entity: nat)
    ensures Resolve(mem, Some(server), handle) == Some(entity) <==>
            && handle != 0xffff_ffff && handle != 0xffff_fffe && entity != 0
            && exists table: nat, chunk: nat :: Stored(mem, server, handle, entity, table, chunk)
  {
    hide Load;
    if exists table: nat, chunk: nat :: Stored(mem, server, handle, entity, table, chunk) {
      var table: nat, chunk: nat :| Stored(mem, server, handle, entity, table, chunk);
      assert Chunk(mem, server, Index(handle)) == Some(chunk);
    }
    if Resolve(mem, Some(server), handle) == Some(entity) {
      var table := Load(mem, server + CHUNK_TABLE_GLOBAL, 8).value;
      var chunk := Chunk(mem, server, Index(handle)).value;
      assert Stored(mem, server, handle, entity, table, chunk);
    }
  }

  ghost predicate Stored(mem: Memory, server: nat, handle: U32, entity: nat, table: nat, chunk: nat) {
    var i := handle % 32768;
    && table != 0 && Load(mem, server + 0x032b_3280, 8) == Some(table)
    && chunk != 0 && Load(mem, table + i / 512 * 8, 8) == Some(chunk)
    && Load(mem, chunk + i % 512 * 112 + 16, 4) == Some(handle)
    && Load(mem, chunk + i % 512 * 112, 8) == Some(entity)
  }

  /** Two different handles of one slot never both resolve. */
  lemma SharedSlotResolvesOnce(mem: Memory, server: Option<nat>, a: U32, b: U32)
    requires Index(a) == Index(b) && Resolve(mem, server, a).Some? && Resolve(mem, server, b).Some?
    ensures a == b
  {
  }

  // ---------------------------------------------------------------- one flat table

  predicate Apart(a: nat, n: nat, b: nat, m: nat) { a + n <= b || b + m <= a }

  /** `chunk` is the memory of the slots of index `i`. */
  predicate HasChunk(mem: Memory, server: nat, i: nat, chunk: nat) {
    i < 0x8000 && chunk != 0 && Chunk(mem, server, i) == Some(chunk)
  }

  /** The chunk of an index is none of the memory that the lookup of chunks reads. */
  ghost predicate OffTable(mem: Memory, server: nat, chunk: nat) {
    var table := Load(mem, server + CHUNK_TABLE_GLOBAL, 8);
    table.Some? && Apart(chunk, SLOTS * SLOT, server + CHUNK_TABLE_GLOBAL, 8) &&
    Apart(chunk, SLOTS * SLOT, table.value, CHUNKS * 8)
  }

  /** Chunks are separate allocations, and the table is none of them. */
  ghost predicate LaidOut(mem: Memory, server: nat) {
    && (forall i: nat, c: nat | HasChunk(mem, server, i, c) :: OffTable(mem, server, c))
    && (forall i: nat, j: nat, c: nat, d: nat
          | HasChunk(mem, server, i, c) && HasChunk(mem, server, j, d) && i / SLOTS != j / SLOTS ::
          Apart(c, SLOTS * SLOT, d, SLOTS * SLOT))
  }

  lemma SlotInside(chunk: nat, i: nat)
    ensures chunk <= Slot(chunk, i) && Slot(chunk, i) + SLOT <= chunk + SLOTS * SLOT
  {
  }

  /** Different indices have slots that do not overlap. */
  lemma SlotsApart(mem: Memory, server: nat, i: nat, j: nat, c: nat, d: nat)
    requires LaidOut(mem, server) && i != j && HasChunk(mem, server, i, c) && HasChunk(mem, server, j, d)
    ensures Apart(Slot(c, i), SLOT, Slot(d, j), SLOT)
  {
    hide Load;
    SlotInside(c, i);
    SlotInside(d, j);
    if i / SLOTS == j / SLOTS {
      assert Chunk(mem, server, i) == Chunk(mem, server, j);
      assert i % SLOTS != j % SLOTS;
    }
  }

  /** The engine puts an entity into the slot of `handle`. */
  function Put(mem: Memory, chunk: nat, handle: U32, entity: nat): Memory {
    var slot := Slot(chunk, Index(handle));
    Store(Store(mem, slot, 8, entity), slot + HANDLE_AT, 4, handle)
  }

  lemma PutElsewhere(mem: Memory, chunk: nat, handle: U32, entity: nat, b: nat, n: nat)
    requires Apart(Slot(chunk, Index(handle)), SLOT, b, n)
    ensures Load(Put(mem, chunk, handle, entity), b, n) == Load(mem, b, n)
  {
    hide Load, Store;
    var slot := Slot(chunk, Index(handle));
    LoadElsewhere(mem, slot, 8, entity, b, n);
    LoadElsewhere(Store(mem, slot, 8, entity), slot + HANDLE_AT, 4, handle, b, n);
  }

  lemma PutThere(mem: Memory, chunk: nat, handle: U32, entity: nat)
    requires entity < Limit(8)
    ensures var slot := Slot(chunk, Index(handle));
            && Load(Put(mem, chunk, handle, entity), slot, 8) == Some(entity)
            && Load(Put(mem, chunk, handle, entity), slot + HANDLE_AT, 4) == Some(handle)
  {
    hide Load, Store, Limit;
    var slot := Slot(chunk, Index(handle));
    LoadStored(mem, slot, 8, entity);
    LoadElsewhere(Store(mem, slot, 8, entity), slot + HANDLE_AT, 4, handle, slot, 8);
    HandleFits(handle);
    LoadStored(Store(mem, slot, 8, entity), slot + HANDLE_AT, 4, handle);
  }

  lemma HandleFits(handle: U32)
    ensures handle < Limit(4)
  {
  }

  lemma ChunkKept(mem: Memory, server: nat, chunk: nat, handle: U32, entity: nat, j: nat)
    requires LaidOut(mem, server) && HasChunk(mem, server, Index(handle), chunk) && j < 0x8000
    ensures Chunk(Put(mem, chunk, handle, entity), server, j) == Chunk(mem, server, j)
  {
    hide Load, Store, Put;
    SlotInside(chunk, Index(handle));
    assert OffTable(mem, server, chunk);
    PutElsewhere(mem, chunk, handle, entity, server + CHUNK_TABLE_GLOBAL, 8);
    var table := Load(mem, server + CHUNK_TABLE_GLOBAL, 8).value;
    PutElsewhere(mem, chunk, handle, entity, table + j / SLOTS * 8, 8);
  }

  /** The two-level lookup is one flat table indexed by the low 15 bits: putting an entity into the
      slot of a handle changes what that handle means, ends every other handle of the slot, and
      leaves all handles of other slots alone. */
  lemma PutThenResolve(mem: Memory, server: nat, chunk: nat, handle: U32, entity: nat, other: U32)
    requires LaidOut(mem, server) && HasChunk(mem, server, Index(handle), chunk)
    requires 0 < entity < Limit(8)
    ensures Resolve(Put(mem, chunk, handle, entity), Some(server), other) ==
            if Reserved(other) then None
            else if other == handle then Some(entity)
            else if Index(other) == Index(handle) then None
            else Resolve(mem, Some(server), other)
  {
    hide Load, Store, Put, Limit, Chunk;
    var after, j := Put(mem, chunk, handle, entity), Index(other);
    ChunkKept(mem, server, chunk, handle, entity, j);
    PutThere(mem, chunk, handle, entity);
    if j == Index(handle) {
      assert Chunk(after, server, j) == Some(chunk);
    } else {
      var c := Chunk(mem, server, j);
      if c.Some? && c.value != 0 {
        SlotsApart(mem, server, Index(handle), j, chunk, c.value);
        PutElsewhere(mem, chunk, handle, entity, Slot(c.value, j) + HANDLE_AT, 4);
        PutElsewhere(mem, chunk, handle, entity, Slot(c.value, j), 8);
      }
    }
  }

  // ---------------------------------------------------------------- any sequence of insertions

  datatype Insertion = Insertion(handle: U32, entity: nat)

  /** There is a chunk behind an index. */
  predicate Backed(mem: Memory, server: nat, i: nat) {
    Chunk(mem, server, i).Some? && Chunk(mem, server, i).value != 0
  }

  /** The engine inserts one entity after the other, each where the lookup finds its chunk. */
  function AfterPuts(mem: Memory, server: nat, puts: seq<Insertion>): Memory {
    if |puts| == 0 then mem
    else
      var m, p := AfterPuts(mem, server, puts[..|puts| - 1]), puts[|puts| - 1];
      if Backed(m, server, Index(p.handle)) then Put(m, Chunk(m, server, Index(p.handle)).value, p.handle, p.entity)
      else m
  }

  /** The last insertion into a slot. */
  function LastAt(puts: seq<Insertion>, i: nat): Option<Insertion> {
    if |puts| == 0 then None
    else if Index(puts[|puts| - 1].handle) == i then Some(puts[|puts| - 1])
    else LastAt(puts[..|puts| - 1], i)
  }

  lemma TableKept(mem: Memory, server: nat, chunk: nat, handle: U32, entity: nat)
    requires LaidOut(mem, server) && HasChunk(mem, server, Index(handle), chunk)
    ensures Load(Put(mem, chunk, handle, entity), server + CHUNK_TABLE_GLOBAL, 8) ==
            Load(mem, server + CHUNK_TABLE_GLOBAL, 8)
  {
    hide Load, Store, Put;
    SlotInside(chunk, Index(handle));
    assert OffTable(mem, server, chunk);
    PutElsewhere(mem, chunk, handle, entity, server + CHUNK_TABLE_GLOBAL, 8);
  }

  /** An insertion leaves the layout as it was. */
  lemma PutKeepsLayout(mem: Memory, server: nat, chunk: nat, handle: U32, entity: nat)
    requires LaidOut(mem, server) && HasChunk(mem, server, Index(handle), chunk)
    ensures LaidOut(Put(mem, chunk, handle, entity), server)
    ensures forall j: nat | j < 0x8000 ::
              Chunk(Put(mem, chunk, handle, entity), server, j) == Chunk(mem, server, j)
  {
    hide Load, Store, Put, Chunk;
    var after := Put(mem, chunk, handle, entity);
    forall j: nat | j < 0x8000 ensures Chunk(after, server, j) == Chunk(mem, server, j) {
      ChunkKept(mem, server, chunk, handle, entity, j);
    }
    TableKept(mem, server, chunk, handle, entity);
    forall i: nat, c: nat ensures HasChunk(after, server, i, c) <==> HasChunk(mem, server, i, c) {
    }
    forall i: nat, c: nat | HasChunk(after, server, i, c) ensures OffTable(after, server, c) {
      assert OffTable(mem, server, c);
    }
  }

  /** After any insertions into backed slots a handle stands for the entity of the last insertion into
      its slot if that insertion was for this very handle, for nothing if it was for another, and for
      what it stood for at the start if there was none. */
  lemma {:induction false} LastInsertionWins(mem: Memory, server: nat, puts: seq<Insertion>, other: U32)
    requires LaidOut(mem, server)
    requires forall p | p in puts :: Backed(mem, server, Index(p.handle)) && 0 < p.entity < Limit(8)
    ensures LaidOut(AfterPuts(mem, server, puts), server)
    ensures forall j: nat | j < 0x8000 :: Chunk(AfterPuts(mem, server, puts), server, j) == Chunk(mem, server, j)
    ensures var last := LastAt(puts, Index(other));
            Resolve(AfterPuts(mem, server, puts), Some(server), other) ==
            if Reserved(other) then None
            else if last.None? then Resolve(mem, Some(server), other)
            else if last.value.handle == other then Some(last.value.entity)
            else None
  {
    hide Put, Chunk, LaidOut, Limit;
    if |puts| > 0 {
      var before, p := puts[..|puts| - 1], puts[|puts| - 1];
      LastInsertionWins(mem, server, before, other);
      var m := AfterPuts(mem, server, before);
      var chunk := Chunk(m, server, Index(p.handle)).value;
      assert p in puts && Chunk(m, server, Index(p.handle)) == Chunk(mem, server, Index(p.handle));
      PutKeepsLayout(m, server, chunk, p.handle, p.entity);
      PutThenResolve(m, server, chunk, p.handle, p.entity, other);
    }
  }
}
