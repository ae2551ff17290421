/**
 * Shared model types of garden-core: the tri-state field update used by the
 * update records, and the page returned by paginated listings
 * (crates/garden-core/src/models/common.rs).
 */
module Common {

  datatype Option<T> = None | Some(value: T)

  datatype Result<T, E> = Ok(value: T) | Err(error: E)

  /** A timestamp; the clock is a parameter of every operation that reads it. */
  type Timestamp = int

  /** Rust `i32`. */
  const I32_MIN: int := -0x8000_0000
  const I32_MAX: int := 0x7FFF_FFFF
  type i32 = x: int | I32_MIN <= x <= I32_MAX

  /** Rust `u32`. */
  type u32 = x: int | 0 <= x < 0x1_0000_0000

  // ---------------------------------------------------------------------
  // FieldUpdate
  // ---------------------------------------------------------------------

  /**
   * Update of an optional field: leave it alone, clear it, or set it.
   * `Keep` is the default value of the type.
   */
  datatype FieldUpdate<T> = Keep | Clear | Set(value: T)
  {
    /** The field's new value given its current one. */
    function Apply(current: Option<T>): (r: Option<T>)
    {
      match this
      case Keep => current
      case Clear => None
      case Set(v) => Some(v)
    }

    /** Whether this update changes anything, i.e. is not `Keep`. */
    predicate IsUpdate()
    {
      !Keep?
    }
  }

  function DefaultFieldUpdate<T>(): (u: FieldUpdate<T>)
    ensures !u.IsUpdate()
  {
    Keep
  }

  /** The three laws of `apply`: keep leaves, clear empties, set replaces. */
  lemma ApplyLaws<T>(current: Option<T>, v: T)
    ensures Keep.Apply(current) == current
    ensures Clear.Apply(current) == None
    ensures Set(v).Apply(current) == Some(v)
  {
  }

  /**
   * `is_update` is exactly "some current value would change": `Keep` never
   * changes a field, `Clear` changes a set field and `Set` changes an empty one.
   */
  lemma IsUpdateIffSomeValueChanges(u: FieldUpdate<string>)
    ensures u.IsUpdate() <==> exists c: Option<string> :: u.Apply(c) != c
  {
    match u
    case Keep =>
    case Clear =>
      assert u.Apply(Some("")) != Some("");
    case Set(v) =>
      assert u.Apply(None) != None;
  }

  /**
   * An update that is not `Keep` ignores the current value, and applying the
   * same update twice is the same as applying it once.
   */
  lemma ApplyOverwritesAndIsIdempotent<T>(u: FieldUpdate<T>, c1: Option<T>, c2: Option<T>)
    ensures u.IsUpdate() ==> u.Apply(c1) == u.Apply(c2)
    ensures u.Apply(u.Apply(c1)) == u.Apply(c1)
  {
  }

  /** Two successive updates act like the later one unless it is `Keep`. */
  lemma ApplyCompose<T>(first: FieldUpdate<T>, second: FieldUpdate<T>, c: Option<T>)
    ensures second.Apply(first.Apply(c)) == (if second.IsUpdate() then second else first).Apply(c)
  {
  }

  // ---------------------------------------------------------------------
  // Page
  // ---------------------------------------------------------------------

  /** One page of a listing: its items, the total count and the request window. */
  datatype Page<T> = Page(items: seq<T>, total: nat, offset: nat, limit: nat)
  {
    /** Whether more items follow this page. */
    predicate HasNext()
    {
      offset + |items| < total
    }

    /** Whether items precede this page. */
    predicate HasPrev()
    {
      offset > 0
    }

    /** Zero-based page index; 0 when the limit is 0. */
    function PageNumber(): nat
    {
      if limit == 0 then 0 else offset / limit
    }

    /** Number of pages (`usize::div_ceil`); 1 when the limit is 0. */
    function TotalPages(): nat
    {
      if limit == 0 then 1
      else
        var d := total / limit;
        var r := total % limit;
        if r > 0 then d + 1 else d
    }
  }

  function NewPage<T>(items: seq<T>, total: nat, offset: nat, limit: nat): (p: Page<T>)
    ensures p.items == items && p.total == total && p.offset == offset && p.limit == limit
  {
    Page(items, total, offset, limit)
  }

  /** The page number is the index of the window of `limit` items holding `offset`. */
  lemma PageNumberLocatesOffset<T>(p: Page<T>)
    requires p.limit > 0
    ensures p.PageNumber() * p.limit <= p.offset < (p.PageNumber() + 1) * p.limit
  {
    var q := p.offset / p.limit;
    var m := p.offset % p.limit;
    assert p.offset == q * p.limit + m;
    assert (q + 1) * p.limit == q * p.limit + p.limit;
  }

  /**
   * The page count is the least number of `limit`-sized pages that hold
   * `total` items.
   */
  lemma TotalPagesIsCeiling<T>(p: Page<T>)
    requires p.limit > 0
    ensures p.TotalPages() * p.limit >= p.total
    ensures p.total > 0 ==> (p.TotalPages() - 1) * p.limit < p.total
    ensures p.total == 0 ==> p.TotalPages() == 0
  {
    var d := p.total / p.limit;
    var r := p.total % p.limit;
    assert p.total == d * p.limit + r;
    assert (d + 1) * p.limit == d * p.limit + p.limit;
    if r == 0 {
      assert p.TotalPages() == d;
      if p.total > 0 {
        assert d > 0;
        assert (d - 1) * p.limit == d * p.limit - p.limit;
      }
    } else {
      assert p.TotalPages() == d + 1;
    }
  }
}
