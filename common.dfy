/** Types shared by every contract: the host's integer widths, addresses,
    coins, cw20 denominations, the messages an entry point hands back to the
    host, and the error values an entry point can end with. */
module Common {

  const U64_LIMIT: nat := 0x1_0000_0000_0000_0000
  const U128_LIMIT: nat := 0x1_0000_0000_0000_0000_0000_0000_0000_0000

  /** Rust's `u64` (block times, periods). */
  type u64 = n: nat | n < U64_LIMIT

  /** Rust's `u128`, cosmwasm's `Uint128` (token amounts). */
  type u128 = n: nat | n < U128_LIMIT

  /** Addresses are opaque, comparable values: canonicalisation and
      validation belong to the host. */
  type Addr = string

  /** A time field of a vesting schedule. Messages carry times as decimal
      strings; `Unparsable` stands for a string that is not a `u64`. */
  datatype TimeField = Parsed(seconds: u64) | Unparsable

  datatype Option<T> = None | Some(value: T)

  function UnwrapOr<T>(o: Option<T>, default: T): (r: T)
    ensures o.Some? ==> r == o.value
    ensures o.None? ==> r == default
  {
    match o
    case Some(v) => v
    case None => default
  }

  datatype Coin = Coin(denom: string, amount: u128)

  /** cw20's `Denom`: a native bank denomination or a cw20 token contract. */
  datatype Denom = Native(name: string) | Cw20(contract: Addr)

  /** The messages an entry point returns for the host to execute. */
  datatype CosmosMsg =
    | BankSend(toAddress: Addr, coins: seq<Coin>)
    | Cw20Transfer(contract: Addr, recipient: Addr, amount: u128)
    | Cw20TransferFrom(contract: Addr, owner: Addr, recipient: Addr, amount: u128)

  /** The one transfer instruction for `amount` of `denom`: a bank send of a
      single coin on the native rail, a cw20 `Transfer` call otherwise. */
  function TransferMsg(denom: Denom, recipient: Addr, amount: u128): (m: CosmosMsg)
    ensures denom.Native? <==> m.BankSend?
    ensures m.BankSend? ==> m.toAddress == recipient && m.coins == [Coin(denom.name, amount)]
    ensures m.Cw20Transfer? ==> m.contract == denom.contract && m.recipient == recipient && m.amount == amount
    ensures !m.Cw20TransferFrom?
  {
    match denom
    case Native(name) => BankSend(recipient, [Coin(name, amount)])
    case Cw20(contract) => Cw20Transfer(contract, recipient, amount)
  }

  /** The amount a single-coin transfer instruction moves; a bank send of
      several coins counts as 0 (the ledgers never build one). */
  function MsgAmount(m: CosmosMsg): nat
  {
    match m
    case BankSend(_, coins) => if |coins| == 1 then coins[0].amount else 0
    case Cw20Transfer(_, _, amount) => amount
    case Cw20TransferFrom(_, _, _, amount) => amount
  }

  /** The total a list of single-coin transfer instructions moves. */
  function SumAmounts(ms: seq<CosmosMsg>): nat
  {
    if ms == [] then 0 else MsgAmount(ms[0]) + SumAmounts(ms[1..])
  }

  /** Totals add up over concatenated lists. */
  lemma {:induction false} SumAmountsAppend(a: seq<CosmosMsg>, b: seq<CosmosMsg>)
    ensures SumAmounts(a + b) == SumAmounts(a) + SumAmounts(b)
  {
    if a == [] {
      assert a + b == b;
    } else {
      assert (a + b)[1..] == a[1..] + b;
      SumAmountsAppend(a[1..], b);
    }
  }

  /** cosmwasm's `StdError`, reduced to what the contracts distinguish;
      `NotFound` is loading a storage item that was never saved.
      `Abort` stands for a Rust panic (an `unwrap` on `None`, raw integer
      overflow, an out-of-range slice): the host aborts the call, which is
      observably an error with every write rolled back. */
  datatype StdError =
    | GenericErr(msg: string)
    | NotFound(kind: string)
    | Unauthorized
    | Overflow
    | Underflow
    | Abort(reason: string)

  datatype Result<T> = Ok(value: T) | Err(error: StdError)

  /** `Uint128::checked_mul`. */
  function CheckedMul(a: u128, b: nat): (r: Result<u128>)
    ensures r.Ok? <==> a * b < U128_LIMIT
    ensures r.Ok? ==> r.value == a * b
    ensures r.Err? ==> r.error == Overflow
  {
    if a * b < U128_LIMIT then Ok(a * b) else Err(Overflow)
  }

  /** `Uint128::checked_sub`. */
  function CheckedSub(a: u128, b: u128): (r: Result<u128>)
    ensures r.Ok? <==> b <= a
    ensures r.Ok? ==> r.value + b == a
    ensures r.Err? ==> r.error == Underflow
  {
    if b <= a then Ok(a - b) else Err(Underflow)
  }

  /** Byte order on keys. Keys are UTF-8, whose byte order agrees with the
      order of the code points it encodes, so comparing the characters
      compares the bytes. */
  predicate KeyLess(a: string, b: string)
  {
    |b| > 0 && (|a| == 0 || a[0] < b[0] || (a[0] == b[0] && KeyLess(a[1..], b[1..])))
  }

  lemma {:induction false} KeyLessIrreflexive(a: string)
    ensures !KeyLess(a, a)
  {
    if |a| > 0 { KeyLessIrreflexive(a[1..]); }
  }

  lemma {:induction false} KeyLessTransitive(a: string, b: string, c: string)
    requires KeyLess(a, b) && KeyLess(b, c)
    ensures KeyLess(a, c)
  {
    if |a| > 0 && a[0] == b[0] && b[0] == c[0] {
      KeyLessTransitive(a[1..], b[1..], c[1..]);
    }
  }

  lemma {:induction false} KeyLessTotal(a: string, b: string)
    ensures a == b || KeyLess(a, b) || KeyLess(b, a)
  {
    if |a| > 0 && |b| > 0 && a[0] == b[0] {
      KeyLessTotal(a[1..], b[1..]);
      if a[1..] == b[1..] {
        assert a == [a[0]] + a[1..] && b == [b[0]] + b[1..];
      }
    }
  }
}
