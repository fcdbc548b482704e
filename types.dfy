/** Vocabulary shared by the polling engine and the older registration path:
    identifiers, the numbers stored in the registry, and the shape of one row
    of the transaction registry table. */
module Types {

  datatype Option<T> = None | Some(value: T)

  type Hash = string
  type Address = string
  type ProjectId = int

  /** A JavaScript number as it reaches a Float column: NaN or a real value.
      Rounding to double precision and the infinities are not modelled. */
  datatype Float = NaN | Num(value: real)

  /** JavaScript multiplication: NaN is absorbing (which is what
      `Registration.RegisterInvalidNumber` relies on). */
  function Mul(a: Float, b: Float): Float {
    if a.Num? && b.Num? then Num(a.value * b.value) else NaN
  }

  datatype TransactionStatus = Approved | Pending | Rejected
  datatype TransactionType = BuyProjectToken | SellProjectToken
  datatype MarketType = Primary | Secondary

  const RECEIPT_PREFIX: string := "https://polygonscan.com/tx/"

  /** The block-explorer link stored with every record. The hash can be read
      back from the link, so distinct hashes get distinct links. */
  function ReceiptLink(h: Hash): (link: string)
    ensures |link| == |RECEIPT_PREFIX| + |h|
    ensures link[..|RECEIPT_PREFIX|] == RECEIPT_PREFIX
    ensures link[|RECEIPT_PREFIX|..] == h
  {
    RECEIPT_PREFIX + h
  }

  /** One row of the project-token transaction registry. The last five
      fields belong to secondary-market sales and are null for purchases. */
  datatype Record = Record(
    projectTokenAddress: Address,
    userWhoBuys: Address,
    tokenAmount: Float,
    wusdtAmount: Float,
    transactionHash: Hash,
    tokenPrice: Float,
    status: TransactionStatus,
    transactionType: TransactionType,
    marketType: MarketType,
    receiptLink: string,
    feesWUSDT: Float,
    projectId: ProjectId,
    userWhoSells: Option<Address>,
    transactionHashOrder: Option<Hash>,
    purchasePrice: Option<Float>,
    salePrice: Option<Float>,
    orderBookTransactionSharedId: Option<string>)
}
