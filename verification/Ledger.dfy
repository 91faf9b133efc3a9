/** The revenue ledger's identities and the split written at settlement. */
module Ledger {
  import opened Wrappers

  type DesignerId = nat
  type Asset = nat
  type TxId = nat
  type Account = nat

  /** A purchase row, named by its unique replay key: the signed payment it came
      with and its position in that payment's batch (0 for a single purchase). */
  datatype PurchaseId = PurchaseId(payment: nat, position: nat)

  /** A designer_share row; `treasury` is held_by == "treasury". */
  datatype Share = Share(designer: DesignerId, asset: Asset, amount: nat, treasury: bool)

  /** A platform_fee row. */
  datatype Fee = Fee(asset: Asset, amount: nat, treasury: bool)

  const PLATFORM_FEE_BPS := 1_000

  function FeeOn(gross: nat): nat {
    gross * PLATFORM_FEE_BPS / 10_000
  }

  /** Money that landed with the designer: paid to the designer's own account, if
      there is one, and that account is not the treasury's. */
  predicate LandedWithDesigner(payTo: Account, designerAccount: Option<Account>, treasury: Account) {
    Some(payTo) == designerAccount && payTo != treasury
  }

  /** The floor never favours the platform: its fee is at most a tenth, the
      designer's part at least nine tenths, and nothing is lost between them. */
  lemma SplitFavoursDesigner(gross: nat)
    ensures FeeOn(gross) <= gross
    ensures 10 * FeeOn(gross) <= gross < 10 * FeeOn(gross) + 10
    ensures 10 * (gross - FeeOn(gross)) >= 9 * gross
  {
  }
}
