/** Fixed-width integers of the host: `size_t`/`uint64_t` wrap modulo 2^64, `int64_t` is two's complement. */
module Machine {
  const WORD: int := 0x1_0000_0000_0000_0000
  const UINT64_MAX: int := 0xffff_ffff_ffff_ffff
  const INT64_MAX: int := 0x7fff_ffff_ffff_ffff
  const INT64_MIN: int := -0x8000_0000_0000_0000

  datatype Option<+T> = None | Some(value: T)

  /** The value an unsigned 64-bit variable holds after an expression whose exact value is `x`: whole words
      are added or dropped until it fits. */
  function Wrap(x: int): (r: nat)
    ensures r <= UINT64_MAX
    decreases if x < 0 then WORD - x else x
  {
    if x < 0 then Wrap(x + WORD)
    else if x > UINT64_MAX then Wrap(x - WORD)
    else x
  }

  /** The value a signed 64-bit variable holds after an expression whose exact value is `x`. */
  function Int64(x: int): (r: int)
    ensures INT64_MIN <= r <= INT64_MAX
  {
    if Wrap(x) <= INT64_MAX then Wrap(x) else Wrap(x) - WORD
  }

  /** Wrapping is reduction modulo 2^64. */
  lemma {:induction false} WrapIsModulo(x: int)
    ensures Wrap(x) == x % WORD
    decreases if x < 0 then WORD - x else x
  {
    if x < 0 {
      WrapIsModulo(x + WORD);
    } else if x > UINT64_MAX {
      WrapIsModulo(x - WORD);
    }
  }

  /** Two's complement: the number of 64 bits and sign that differs from `x` by whole words. */
  lemma Int64IsSigned(x: int)
    ensures Int64(x) == (x + 0x8000_0000_0000_0000) % 0x1_0000_0000_0000_0000 - 0x8000_0000_0000_0000
  {
    WrapIsModulo(x);
  }

  /** Wrapping an operand first does not change the wrapped sum. */
  lemma {:induction false} WrapSum(x: int, y: int)
    ensures Wrap(Wrap(x) + y) == Wrap(x + y)
    decreases if x < 0 then WORD - x else x
  {
    if x < 0 {
      WrapSum(x + WORD, y);
      WrapWord(x + y);
    } else if x > UINT64_MAX {
      WrapSum(x - WORD, y);
      WrapWord(x - WORD + y);
    }
  }

  /** A whole word more is invisible. */
  lemma WrapWord(x: int)
    ensures Wrap(x + WORD) == Wrap(x)
  {
  }
}
