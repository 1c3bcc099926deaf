/** One slot of the Reed-Solomon receiver's generation table, and what one fragment does to it, as functions. */
module RsSlot {
  import opened Base
  import opened Deliveries
  import opened RsCodec
  import opened Wire

  /** Per-generation state. Every row is a buffer of MAX_PKT_LEN bytes of which the first `len` are in use. */
  datatype Slot = Slot(inUse: bool, genId: nat, len: nat,
                       data: seq<Packet>, present: seq<bool>, forwarded: seq<bool>,
                       parity: seq<Packet>, parityPresent: seq<bool>,
                       completed: bool, reported: bool, attempted: bool, succeeded: bool, parityCounted: bool,
                       firstRx: nat, lastFwd: nat, usefulBytes: nat)

  /** Global counters of the receiver. */
  datatype Stats = Stats(generations: nat, noLoss: nat, repaired: nat, decodeFailed: nat,
                         dataFragments: nat, parityFragments: nat, parityConsumed: nat,
                         sent: SendTotals, decodeCalls: nat, usefulBytes: nat, completed: nat)

  /** What a handler works on: a slot, the counters, and the sends of this call so far. */
  datatype World = World(slot: Slot, stats: Stats, log: seq<Delivery>)

  /** What surrounds one call of a handler: the codec and its parity count, the raw socket's verdict on each row, and
      the clock. */
  datatype Env = Env(codec: Codec, r: nat, accepts: nat -> bool, now: nat)

  function BlankSlot(): Slot {
    Slot(false, 0, 0, Repeat(Repeat<Byte>(0, MAX_PKT_LEN), K), Repeat(false, K), Repeat(false, K),
         Repeat(Repeat<Byte>(0, MAX_PKT_LEN), MAX_PARITY), Repeat(false, MAX_PARITY),
         false, false, false, false, false, 0, 0, 0)
  }

  function FreshSlot(id: nat): Slot {
    BlankSlot().(inUse := true, genId := id)
  }

  ghost predicate WellSized(s: Slot) {
    && s.len <= MAX_PKT_LEN
    && |s.data| == |s.present| == |s.forwarded| == K
    && |s.parity| == |s.parityPresent| == MAX_PARITY
    && (forall i :: 0 <= i < K ==> |s.data[i]| == MAX_PKT_LEN)
    && (forall p :: 0 <= p < MAX_PARITY ==> |s.parity[p]| == MAX_PKT_LEN)
  }

  ghost predicate EnvOk(e: Env) {
    e.r <= MAX_PARITY && Shaped(e.codec, e.r)
  }

  /** Which generation a slot serves. */
  function Owner(s: Slot): (bool, nat, nat) {
    (s.inUse, s.genId, s.len)
  }

  // ----- forwarding

  /** forward_ip_packet on row i: too short for an IP header means no send; the counters follow the socket's verdict. */
  function SendRow(w: World, i: nat, original: bool, e: Env): World
    requires WellSized(w.slot) && i < K
  {
    var len := w.slot.len;
    if len < MIN_IP then w
    else
      var ok := e.accepts(i);
      w.(log := w.log + [Delivery(w.slot.genId, i, w.slot.data[i][..len], original, ok)],
         stats := if ok then w.stats.(sent := CountSend(w.stats.sent, len, original)) else w.stats)
  }

  /** One row handed on: sent, flagged as forwarded whatever the socket said, and counted as useful payload. */
  function ForwardRow(w: World, i: nat, original: bool, e: Env): (w': World)
    requires WellSized(w.slot) && i < K
    ensures WellSized(w'.slot) && Owner(w'.slot) == Owner(w.slot)
  {
    var s := w.slot;
    SendRow(w, i, original, e).(slot :=
      s.(forwarded := s.forwarded[i := true], lastFwd := e.now,
         usefulBytes := s.usefulBytes + PayloadBytes(s.data[i][..s.len])))
  }

  /** The first n rows that are present and not yet forwarded go out as originals. */
  function ForwardOriginals(w: World, n: nat, e: Env): (w': World)
    requires WellSized(w.slot) && n <= K
    ensures WellSized(w'.slot) && Owner(w'.slot) == Owner(w.slot)
  {
    if n == 0 then w
    else
      var w1 := ForwardOriginals(w, n - 1, e);
      if w1.slot.present[n - 1] && !w1.slot.forwarded[n - 1] then ForwardRow(w1, n - 1, true, e) else w1
  }

  /** The first n rows that are missing are marked present and go out as repaired. */
  function ForwardRepaired(w: World, n: nat, e: Env): (w': World)
    requires WellSized(w.slot) && n <= K
    ensures WellSized(w'.slot) && Owner(w'.slot) == Owner(w.slot)
  {
    if n == 0 then w
    else
      var w1 := ForwardRepaired(w, n - 1, e);
      if !w1.slot.present[n - 1] then
        ForwardRow(w1.(slot := w1.slot.(present := w1.slot.present[n - 1 := true])), n - 1, false, e)
      else w1
  }

  // ----- decoding

  /** Column j of the slot as the decoder sees it. */
  function ColumnWord(s: Slot, r: nat, j: nat): (w: seq<Byte>)
    requires WellSized(s) && r <= MAX_PARITY && j < MAX_PKT_LEN
    ensures |w| == K + r
  {
    seq(K + r, i requires 0 <= i < K + r =>
      if i < K then (if s.present[i] then s.data[i][j] else 0) else s.parity[i - K][j])
  }

  function DecodedByte(s: Slot, c: Codec, r: nat, i: nat, j: nat): Byte
    requires WellSized(s) && r <= MAX_PARITY && Shaped(c, r) && i < K && j < MAX_PKT_LEN
  {
    c.decode(ColumnWord(s, r, j), Missing(s.present))[i]
  }

  /** The data rows after the first `cols` columns have been decoded: missing rows rebuilt, everything else kept. */
  function DecodedRows(s: Slot, c: Codec, r: nat, cols: nat): (rows: seq<Packet>)
    requires WellSized(s) && r <= MAX_PARITY && Shaped(c, r) && cols <= MAX_PKT_LEN
    ensures |rows| == K && forall i :: 0 <= i < K ==> |rows[i]| == MAX_PKT_LEN
  {
    seq(K, i requires 0 <= i < K =>
      seq(MAX_PKT_LEN, j requires 0 <= j < MAX_PKT_LEN =>
        if !s.present[i] && j < cols then DecodedByte(s, c, r, i, j) else s.data[i][j]))
  }

  predicate AllParity(s: Slot, r: nat)
    requires |s.parityPresent| == MAX_PARITY && r <= MAX_PARITY
  {
    forall p :: 0 <= p < r ==> s.parityPresent[p]
  }

  /** The gate in front of the decoder: something to forward, something missing, and all r parity rows present. */
  predicate GateOpen(s: Slot, r: nat)
    requires WellSized(s) && r <= MAX_PARITY
  {
    s.inUse && s.len > 0 && r > 0 && Count(s.forwarded) < K && Count(s.present) < K && AllParity(s, r)
  }

  /** All columns decoded, before anything repaired is handed on. */
  function DecodeColumns(w: World, e: Env): (w': World)
    requires WellSized(w.slot) && EnvOk(e)
    ensures WellSized(w'.slot) && Owner(w'.slot) == Owner(w.slot)
  {
    var s := w.slot;
    var st := if s.parityCounted then w.stats else w.stats.(parityConsumed := w.stats.parityConsumed + e.r);
    w.(slot := s.(attempted := true, parityCounted := true, data := DecodedRows(s, e.codec, e.r, s.len)),
       stats := st.(decodeCalls := st.decodeCalls + 1))
  }

  function Decode(w: World, e: Env): (w': World)
    requires WellSized(w.slot) && EnvOk(e)
    ensures WellSized(w'.slot) && Owner(w'.slot) == Owner(w.slot)
  {
    if !GateOpen(w.slot, e.r) then w
    else
      var w1 := ForwardRepaired(DecodeColumns(w, e), K, e);
      if Count(w1.slot.present) == K then w1.(slot := w1.slot.(succeeded := true)) else w1
  }

  // ----- completion

  function Classify(s: Slot, st: Stats): Stats
    requires WellSized(s)
  {
    if Count(s.present) == K then
      if !s.attempted then st.(noLoss := st.noLoss + 1)
      else if s.succeeded then st.(repaired := st.repaired + 1)
      else st.(decodeFailed := st.decodeFailed + 1)
    else st.(decodeFailed := st.decodeFailed + 1)
  }

  /** The first time every row has been forwarded the generation is classified and its totals are booked. */
  function Complete(w: World): (w': World)
    requires WellSized(w.slot)
    ensures WellSized(w'.slot) && Owner(w'.slot) == Owner(w.slot)
  {
    var s := w.slot;
    if Count(s.forwarded) < K then w
    else if s.reported then w.(slot := s.(completed := true))
    else
      var st := Classify(s, w.stats);
      var st1 := if s.firstRx != 0 && s.lastFwd != 0 then st.(completed := st.completed + 1) else st;
      w.(slot := s.(completed := true, reported := true),
         stats := st1.(usefulBytes := st1.usefulBytes + s.usefulBytes))
  }

  function Process(w: World, e: Env): (w': World)
    requires WellSized(w.slot) && EnvOk(e)
    ensures WellSized(w'.slot) && Owner(w'.slot) == Owner(w.slot)
  {
    if !w.slot.inUse || w.slot.len == 0 then w
    else Complete(Decode(ForwardOriginals(w, K, e), e))
  }

  // ----- one fragment

  predicate Acceptable(f: Fragment) {
    f.originalLen <= |f.payload| && 0 < f.originalLen <= MAX_PKT_LEN
  }

  /** The slot lookup: a slot that is unused or holds another generation is wiped first. */
  function Open(s: Slot, id: nat): Slot {
    if s.inUse && s.genId == id then s else FreshSlot(id)
  }

  /** First-arrival time and length; a fragment of another length restarts the generation. */
  function Admit(w: World, f: Fragment, e: Env): (w': World)
    requires WellSized(w.slot) && Acceptable(f)
    ensures WellSized(w'.slot) &&
            (w.slot.inUse && w.slot.genId == f.genId ==> w'.slot.inUse && w'.slot.genId == f.genId)
  {
    var s := if w.slot.firstRx == 0 then w.slot.(firstRx := e.now) else w.slot;
    if s.len == 0 then w.(slot := s.(len := f.originalLen))
    else if s.len == f.originalLen then w.(slot := s)
    else w.(slot := FreshSlot(f.genId).(firstRx := e.now, len := f.originalLen),
            stats := w.stats.(generations := w.stats.generations + 1))
  }

  predicate Storable(f: Fragment, r: nat) {
    (f.kind == DATA && f.index < K) || (f.kind == PARITY && K <= f.index < K + r)
  }

  /** A first copy is stored, a duplicate is ignored. */
  function Store(w: World, f: Fragment, r: nat): (w': World)
    requires WellSized(w.slot) && Acceptable(f) && r <= MAX_PARITY && Storable(f, r)
    ensures WellSized(w'.slot) && Owner(w'.slot) == Owner(w.slot)
  {
    var s, st := w.slot, w.stats;
    if f.kind == DATA then
      if s.present[f.index] then w
      else w.(slot := s.(data := s.data[f.index := Overwrite(s.data[f.index], f.payload, f.originalLen)],
                         present := s.present[f.index := true]),
              stats := st.(dataFragments := st.dataFragments + 1))
    else
      var p := f.index - K;
      if s.parityPresent[p] then w
      else w.(slot := s.(parity := s.parity[p := Overwrite(s.parity[p], f.payload, f.originalLen)],
                         parityPresent := s.parityPresent[p := true]),
              stats := st.(parityFragments := st.parityFragments + 1))
  }

  /** The slot of the fragment's generation, wiped first if it held another one. */
  function Lookup(w: World, f: Fragment, e: Env): (w': World)
    requires WellSized(w.slot) && Acceptable(f)
    ensures WellSized(w'.slot) && w'.slot.inUse && w'.slot.genId == f.genId
  {
    var wiped := !(w.slot.inUse && w.slot.genId == f.genId);
    var st := if wiped then w.stats.(generations := w.stats.generations + 1) else w.stats;
    Admit(w.(slot := Open(w.slot, f.genId), stats := st), f, e)
  }

  /** The whole handler for an acceptable fragment, on the slot it maps to. */
  function OnFragment(w: World, f: Fragment, e: Env): (w': World)
    requires WellSized(w.slot) && Acceptable(f) && EnvOk(e)
    ensures WellSized(w'.slot) && w'.slot.inUse && w'.slot.genId == f.genId
  {
    var w1 := Lookup(w, f, e);
    if Storable(f, e.r) then Process(Store(w1, f, e.r), e) else w1
  }

  /** What the gate in front of the decoder looks at while a fragment is handled. */
  function AtDecoder(w: World, f: Fragment, e: Env): (w': World)
    requires WellSized(w.slot) && Acceptable(f) && EnvOk(e) && Storable(f, e.r)
    ensures WellSized(w'.slot)
  {
    ForwardOriginals(Store(Lookup(w, f, e), f, e.r), K, e)
  }
}
