/** The records the query index stores, and the filters each record is indexed under. */
module Schema {
  import opened Seqs

  type Byte = x: int | 0 <= x < 256
  type Bytes = seq<Byte>
  type Address = int
  type Hash = int

  datatype Family = BlockHeader | Transaction | Log | Trace

  /** Family::iter(): every family, in declaration order. */
  function Nth(k: nat): (f: Family)
    requires k < 4
    ensures Rank(f) == k
  {
    if k == 0 then BlockHeader else if k == 1 then Transaction else if k == 2 then Log else Trace
  }

  function Rank(f: Family): (k: nat)
    ensures k < 4
  {
    match f
    case BlockHeader => 0
    case Transaction => 1
    case Log => 2
    case Trace => 3
  }

  /** One value per family; tables keyed by (family, key) are split this way. */
  datatype PerFamily<T> = PerFamily(header: T, tx: T, log: T, trace: T) {
    function At(f: Family): T {
      match f
      case BlockHeader => header
      case Transaction => tx
      case Log => log
      case Trace => trace
    }

    function With(f: Family, value: T): (r: PerFamily<T>)
      ensures forall g :: r.At(g) == if g == f then value else At(g)
    {
      match f
      case BlockHeader => this.(header := value)
      case Transaction => this.(tx := value)
      case Log => this.(log := value)
      case Trace => this.(trace := value)
    }
  }

  lemma SameEverywhere<T>(a: PerFamily<T>, b: PerFamily<T>)
    requires forall f :: a.At(f) == b.At(f)
    ensures a == b
  {
    assert a.At(BlockHeader) == b.At(BlockHeader) && a.At(Transaction) == b.At(Transaction);
    assert a.At(Log) == b.At(Log) && a.At(Trace) == b.At(Trace);
  }

  function Tabulate<T>(g: Family -> T): (r: PerFamily<T>)
    ensures forall f :: r.At(f) == g(f)
  {
    PerFamily(g(BlockHeader), g(Transaction), g(Log), g(Trace))
  }

  datatype CallKind = Call | StaticCall | DelegateCall | CallCode | Create | Create2 | SelfDestruct

  datatype Filter =
    | ByAddress(address: Address)
    | From(address: Address)
    | HasTransfer
    | Selector(selector: Bytes)
    | To(address: Address)
    | TopLevel
    | Topic(position: nat, topic: Hash)
    | Miner(address: Address)

  /** The remaining header fields are carried by `rest`. */
  datatype Header = Header(number: nat, parentHash: Hash, beneficiary: Address, rest: nat)

  datatype StoredTx = StoredTx(txHash: Hash, sender: Address, signedTx: Bytes)

  datatype StoredLog = StoredLog(txIndex: nat, logIndex: nat, address: Address, topics: seq<Hash>, data: Bytes)

  /** value, gas, gas_used, output and depth are carried by `rest`. */
  datatype StoredTrace = StoredTrace(
    kind: CallKind, from: Address, to: Option<Address>, input: Bytes, status: nat,
    txIndex: nat, traceAddress: seq<nat>, txStatus: bool, rest: nat)

  datatype Item = HeaderItem(header: Header) | TxItem(tx: StoredTx) | LogItem(log: StoredLog)
    | TraceItem(trace: StoredTrace)

  datatype Tx = Tx(envelope: StoredTx, logs: seq<StoredLog>, traces: seq<StoredTrace>)

  datatype Block = Block(header: Header, txs: seq<Tx>) {
    function Number(): nat { header.number }
  }

  datatype Envelope = Envelope(to: Option<Address>, selector: Option<Bytes>)

  /** Library code the index relies on: hashing, RLP followed by zstd, and transaction envelopes. */
  datatype Codec = Codec(
    hash: Header -> Hash,
    encode: Item -> Bytes,
    decode: (Family, Bytes) -> Option<Item>,
    envelope: Bytes -> Option<Envelope>)
  {
    /** Decoding a stored payload gives back the record that was encoded. */
    ghost predicate Lawful() {
      forall x: Item :: decode(FamilyOf(x), encode(x)) == Some(x)
    }
  }

  function FamilyOf(x: Item): Family {
    match x
    case HeaderItem(_) => BlockHeader
    case TxItem(_) => Transaction
    case LogItem(_) => Log
    case TraceItem(_) => Trace
  }

  // ---- bitmap_filters ----

  function HeaderFilters(h: Header): seq<Filter> { [Miner(h.beneficiary)] }

  /** None when the signed transaction bytes are not a valid envelope. */
  function TxFilters(c: Codec, tx: StoredTx): Option<seq<Filter>> {
    var e :- c.envelope(tx.signedTx);
    Some([From(tx.sender)]
         + (if e.to.Some? then [To(e.to.value)] else [])
         + (if e.selector.Some? then [Selector(e.selector.value)] else []))
  }

  function LogFilters(log: StoredLog): seq<Filter> {
    [ByAddress(log.address)]
    + seq(Min(4, |log.topics|), i requires 0 <= i < Min(4, |log.topics|) => Topic(i, log.topics[i]))
  }

  function TraceFilters(t: StoredTrace, ancestorReverted: bool): seq<Filter> {
    [From(t.from)]
    + (if t.to.Some? then [To(t.to.value)] else [])
    + (if |t.input| >= 4 then [Selector(t.input[..4])] else [])
    + (if t.traceAddress == [] then [TopLevel] else [])
    + (if !ancestorReverted && t.txStatus && t.status == 0 && t.kind in {Call, Create, Create2, SelfDestruct}
       then [HasTransfer] else [])
  }
}
