/** Sizes, and where a value pointer lies in the flat space of blocks and bytes formed by all pages. */
module Layout {
  import opened Wrappers
  import opened PointerTracker

  type Byte = b: int | 0 <= b < 256

  type Value = seq<Byte>

  function DivCeil(n: nat, d: nat): (r: nat)
    requires d > 0
    ensures n <= r * d < n + d
  {
    (n + d - 1) / d
  }

  /** A configuration that `StorageConfig::try_from` accepts; the region size is read from a `u16`. */
  datatype Config = Config(pageBytes: nat, blockBytes: nat, regionBlocks: nat) {

    predicate Valid() {
      && blockBytes > 0 && 0 < regionBlocks <= 0xFFFF
      && pageBytes >= blockBytes * regionBlocks > 0
      && pageBytes % (blockBytes * regionBlocks) == 0
    }

    function PageBlocks(): nat
      requires blockBytes > 0
    {
      pageBytes / blockBytes
    }

    function BlocksFor(length: nat): nat
      requires blockBytes > 0
    {
      DivCeil(length, blockBytes)
    }

    function FirstBlock(p: ValuePointer): nat
      requires blockBytes > 0
    {
      p.page * PageBlocks() + p.block
    }

    function EndBlock(p: ValuePointer): nat
      requires blockBytes > 0
    {
      FirstBlock(p) + BlocksFor(p.length)
    }

    function FirstByte(p: ValuePointer): nat
      requires blockBytes > 0
    {
      FirstBlock(p) * blockBytes
    }

    predicate Covers(p: ValuePointer, b: nat)
      requires blockBytes > 0
    {
      FirstBlock(p) <= b < EndBlock(p)
    }

    /** `p` names a non-empty value that starts inside its page and ends within `blocks` blocks. */
    predicate Fits(p: ValuePointer, blocks: nat)
      requires blockBytes > 0
    {
      p.length > 0 && p.block < PageBlocks() && EndBlock(p) <= blocks
    }

    predicate Apart(p: ValuePointer, r: ValuePointer)
      requires blockBytes > 0
    {
      EndBlock(p) <= FirstBlock(r) || EndBlock(r) <= FirstBlock(p)
    }
  }

  /** What a user may set; the region size is a `u16`. */
  datatype Options = Options(pageBytes: Option<nat>, blockBytes: Option<nat>, regionBlocks: Option<nat>)

  datatype ConfigResult = Accepted(config: Config) | Rejected(why: string)

  /** `StorageConfig::try_from`. */
  function TryFrom(o: Options): ConfigResult {
    var pageBytes := if o.pageBytes.Some? then o.pageBytes.value else 32 * 1024 * 1024;
    var blockBytes := if o.blockBytes.Some? then o.blockBytes.value else 128;
    var regionBlocks := if o.regionBlocks.Some? then o.regionBlocks.value else 8192;
    if blockBytes == 0 then Rejected("Block size must be greater than 0")
    else if regionBlocks == 0 then Rejected("Region size must be greater than 0")
    else if pageBytes == 0 then Rejected("Page size must be greater than 0")
    else
      var regionBytes := blockBytes * regionBlocks;
      if pageBytes < regionBytes then
        Rejected("Page size must be greater than or equal to (block size * region size)")
      else if pageBytes % regionBytes != 0 then
        Rejected("Page size must be a multiple of (block size * region size)")
      else Accepted(Config(pageBytes, blockBytes, regionBlocks))
  }

  /** Exactly the valid configurations are accepted, as they are, and so is saying nothing. */
  lemma AcceptedIsValid(c: Config)
    requires c.regionBlocks <= 0xFFFF
    ensures TryFrom(Options(Some(c.pageBytes), Some(c.blockBytes), Some(c.regionBlocks))) == Accepted(c) <==> c.Valid()
    ensures TryFrom(Options(None, None, None)) == Accepted(Config(33_554_432, 128, 8192))
  {
  }

  /** A value takes the least number of blocks that hold it. */
  lemma BlocksAreLeast(c: Config, length: nat)
    requires c.blockBytes > 0 && length > 0
    ensures c.BlocksFor(length) > 0
    ensures (c.BlocksFor(length) - 1) * c.blockBytes < length <= c.BlocksFor(length) * c.blockBytes
  {
    assert length <= c.BlocksFor(length) * c.blockBytes < length + c.blockBytes;
  }

  lemma PageIsWholeRegions(c: Config)
    requires c.Valid()
    ensures c.pageBytes == c.PageBlocks() * c.blockBytes
    ensures c.PageBlocks() % c.regionBlocks == 0 && c.PageBlocks() >= c.regionBlocks
  {
    var k := c.pageBytes / (c.blockBytes * c.regionBlocks);
    assert c.pageBytes == (c.blockBytes * c.regionBlocks) * k;
    assert c.pageBytes == c.blockBytes * (c.regionBlocks * k) by {
      MulAssociative(c.blockBytes, c.regionBlocks, k);
    }
    QuotientIs(c.pageBytes, c.blockBytes, c.regionBlocks * k);
    QuotientIs(c.regionBlocks * k, c.regionBlocks, k);
    if k >= 1 {
      MulMonotone(1, k, c.regionBlocks);
    }
  }

  lemma MulAssociative(a: int, b: int, c: int)
    ensures (a * b) * c == a * (b * c)
  {
  }

  lemma QuotientIs(n: nat, d: nat, k: nat)
    requires d > 0 && n == d * k
    ensures n / d == k && n % d == 0
  {
    var q, r := n / d, n % d;
    assert n == d * q + r;
    assert d * (k - q) == r;
    if q < k {
      MulMonotone(1, k - q, d);
    }
  }

  lemma Remainder(a: int, m: nat, q: int, r: nat)
    requires r < m && a == m * q + r
    ensures a % m == r
  {
    var x := a / m;
    assert m * (q - x) == a % m - r;
    if q > x {
      MulMonotone(1, q - x, m);
    } else if q < x {
      MulMonotone(1, x - q, m);
    }
  }

  lemma MulMonotone(a: nat, b: nat, c: nat)
    requires a <= b
    ensures a * c <= b * c
  {
  }

  /** The bytes of a fitting pointer lie within its blocks. */
  lemma BytesInBlocks(c: Config, p: ValuePointer, blocks: nat)
    requires c.blockBytes > 0 && c.Fits(p, blocks)
    ensures c.FirstByte(p) + p.length <= c.EndBlock(p) * c.blockBytes <= blocks * c.blockBytes
    ensures c.FirstBlock(p) < c.EndBlock(p)
  {
    MulMonotone(c.EndBlock(p), blocks, c.blockBytes);
    assert c.EndBlock(p) * c.blockBytes == c.FirstBlock(p) * c.blockBytes + c.BlocksFor(p.length) * c.blockBytes;
  }

  /** Values in separate blocks have separate bytes. */
  lemma ApartInBytes(c: Config, p: ValuePointer, r: ValuePointer, blocks: nat)
    requires c.blockBytes > 0 && c.Fits(p, blocks) && c.Fits(r, blocks) && c.Apart(p, r)
    ensures c.FirstByte(p) + p.length <= c.FirstByte(r) || c.FirstByte(r) + r.length <= c.FirstByte(p)
  {
    BytesInBlocks(c, p, blocks);
    BytesInBlocks(c, r, blocks);
    if c.EndBlock(p) <= c.FirstBlock(r) {
      MulMonotone(c.EndBlock(p), c.FirstBlock(r), c.blockBytes);
    } else {
      MulMonotone(c.EndBlock(r), c.FirstBlock(p), c.blockBytes);
    }
  }

  /** The bytes that `p` names in the flat space of bytes. */
  function Read(c: Config, bytes: seq<Byte>, p: ValuePointer): Value
    requires c.blockBytes > 0
  {
    var first := c.FirstByte(p);
    if first + p.length <= |bytes| then bytes[first..first + p.length] else []
  }

  function Splice(bytes: seq<Byte>, first: nat, value: Value): (r: seq<Byte>)
    requires first + |value| <= |bytes|
    ensures |r| == |bytes|
  {
    bytes[..first] + value + bytes[first + |value|..]
  }
}
