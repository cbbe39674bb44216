/** The data model shared by every module: chains, deposits, audit records and the persisted state. */
module Types {

  const U64_MAX: int := 0xFFFF_FFFF_FFFF_FFFF

  /** Block numbers and depths are unsigned 64-bit integers. */
  type u64 = n: int | 0 <= n <= 0xFFFF_FFFF_FFFF_FFFF

  /** Nanoseconds since the Unix epoch, UTC. */
  type Time = nat

  const HOUR: nat := 3_600_000_000_000
  const DAY: nat := 86_400_000_000_000

  /** USDC and USD amounts are integers in millionths of a unit. */
  const USDC_DUST_THRESHOLD: int := 1_000_000
  const DEFAULT_CONFIRMATION_BLOCKS: u64 := 14
  const CHAIN_STALE_THRESHOLD: nat := 6 * HOUR

  datatype Option<+T> = None | Some(value: T)

  datatype Result<+T> = Ok(value: T) | Err(error: string)

  function SatAdd(a: u64, b: u64): u64 {
    if a + b > U64_MAX then U64_MAX else a + b
  }

  function SatSub(a: u64, b: u64): u64 {
    if a < b then 0 else a - b
  }

  function Min(a: int, b: int): int {
    if b < a then b else a
  }

  function Max(a: int, b: int): int {
    if a < b then b else a
  }

  datatype Chain = Ethereum | Base | Arbitrum | Polygon | Optimism | Monad

  const ALL_CHAINS: seq<Chain> := [Ethereum, Base, Arbitrum, Polygon, Optimism, Monad]

  /** Position of a chain in the order in which all chains are visited. */
  function ChainIndex(c: Chain): (i: nat)
    ensures i < |ALL_CHAINS| && ALL_CHAINS[i] == c
  {
    match c
    case Ethereum => 0
    case Base => 1
    case Arbitrum => 2
    case Polygon => 3
    case Optimism => 4
    case Monad => 5
  }

  function ChunkSize(c: Chain): u64 {
    if c == Monad then 1_000 else 10_000
  }

  /** One USDC transfer to a monitored address as it stands on chain. */
  datatype Transfer = Transfer(txHash: string, amount: int)

  /** What a chain holds: the transfers to an address in a block, in log order. */
  type Contents = (string, u64) -> seq<Transfer>

  datatype UsdcReceive = UsdcReceive(txHash: string, amount: int, block: u64, fetchedAt: Time)

  /** A watched address stands for the account itself: two spellings of it are one address, configured twice. */
  datatype AddressConfig = AddressConfig(address: string, paymentMethod: string)

  datatype Config = Config(
    maxAutoAmount: int,
    addresses: seq<AddressConfig>,
    confirmationBlocks: map<Chain, u64>,
    startBlocks: map<Chain, u64>)
  {
    function ConfirmationsFor(c: Chain): u64 {
      if c in confirmationBlocks then confirmationBlocks[c] else DEFAULT_CONFIRMATION_BLOCKS
    }
  }

  datatype EligibleDeposit = EligibleDeposit(
    address: string,
    chain: Chain,
    txHash: string,
    amount: int,
    paymentMethod: string,
    depositedAt: Time,
    processedAt: Time)

  datatype SellResult = SellResult(orderId: string, usdReceived: int)

  datatype WithdrawalResult = WithdrawalResult(transferId: string, initiatedAt: Time)

  /** Why a liquidation failed; stands for the text of the operator alert. */
  datatype Failure = ExceedsThreshold | SellFailed(cause: string) | WithdrawalFailed(cause: string)

  datatype Outcome =
    | Initiated(orderId: string, usdProceeds: int, transferId: string, initiatedAt: Time)
    | Failed(error: Failure, failedAt: Time)

  datatype BankPayment = BankPayment(
    id: string,
    address: string,
    chain: Chain,
    txHash: string,
    amount: int,
    paymentMethod: string,
    outcome: Outcome,
    depositedAt: Time,
    processedAt: Time)

  datatype LiquidationResult = LiquidationResult(txHash: string, payment: BankPayment)

  datatype LastSeenBlock = LastSeenBlock(block: u64, updatedAt: Time)

  /** The value of the state file. */
  datatype State = State(
    bankPayments: map<string, BankPayment>,
    processed: set<string>,
    lastSeen: map<Chain, LastSeenBlock>)

  const EMPTY_STATE := State(map[], {}, map[])

  datatype ErrorReport = HeightFailed(chain: Chain) | FetchFailed(chain: Chain, address: string)
}
