/** Deposit and redeem on Solana: as values first, then as the handlers that change the accounts. */
module BaseLayer {
  import opened Words
  import opened Books
  import opened Pricing

  /** The balances one public deposit or redemption touches: the vault, its USDC, the agYLD
      mint's supply, and the user's two token accounts. */
  datatype Purse = Purse(vault: Vault, vaultUsdc: u64, agyldSupply: u64, userUsdc: u64, userAgyld: u64)

  /** SPL Token refuses a transfer the source cannot cover, or one the destination cannot hold. */
  predicate Moves(from: u64, to: u64, amount: u64) {
    amount <= from && to + amount <= U64_MAX
  }

  function Deposit(p: Purse, b: Book, sh: Shielded, amount: u64): Result<Purse> {
    var _ :- Require(amount > 0, ZeroAmount);
    var q :- NavForPricing(p.vault, b, sh);
    var shares :- SharesFor(amount, q);
    var _ :- Require(Moves(p.userUsdc, p.vaultUsdc, amount), TokenProgram);
    var _ :- Require(p.agyldSupply + shares <= U64_MAX && p.userAgyld + shares <= U64_MAX, TokenProgram);
    Ok(Purse(
      Vault(SatAdd(p.vault.shares, shares), SatAdd(p.vault.totalIn, amount), p.vault.totalOut),
      p.vaultUsdc + amount, p.agyldSupply + shares, p.userUsdc - amount, p.userAgyld + shares))
  }

  function Redeem(p: Purse, b: Book, sh: Shielded, shares: u64): Result<Purse> {
    var _ :- Require(shares > 0, ZeroAmount);
    var q :- NavForPricing(p.vault, b, sh);
    var _ :- Require(p.vault.shares >= shares, InsufficientShares);
    var assets :- AssetsFor(shares, q);
    var _ :- Require(assets <= p.vaultUsdc, InsufficientLiquidity);
    var _ :- Require(shares <= p.userAgyld && shares <= p.agyldSupply, TokenProgram);
    var _ :- Require(Moves(p.vaultUsdc, p.userUsdc, assets), TokenProgram);
    Ok(Purse(
      Vault(SatSub(p.vault.shares, shares), p.vault.totalIn, SatAdd(p.vault.totalOut, assets)),
      p.vaultUsdc - assets, p.agyldSupply - shares, p.userUsdc + assets, p.userAgyld - shares))
  }

  /** The vault's books and its money agree: the supply it counts is the agYLD that exists, and
      what flowed in less what flowed out is what the custody holds. */
  predicate Backed(p: Purse) {
    && p.vault.shares == p.agyldSupply
    && p.vault.totalOut <= p.vault.totalIn
    && p.vaultUsdc == p.vault.totalIn - p.vault.totalOut
  }

  /** A deposit is backed to the unit: the vault receives what the user gives, mints what the
      user gets, and counts both. */
  lemma DepositIsBacked(p: Purse, b: Book, sh: Shielded, amount: u64)
    requires Backed(p) && Deposit(p, b, sh, amount).Ok?
    requires p.vault.totalIn + amount <= U64_MAX
    ensures var t := Deposit(p, b, sh, amount).value;
      && Backed(t)
      && t.vaultUsdc + t.userUsdc == p.vaultUsdc + p.userUsdc
      && t.agyldSupply - t.userAgyld == p.agyldSupply - p.userAgyld
      && t.vault.totalIn == p.vault.totalIn + amount && t.vault.totalOut == p.vault.totalOut
  {
  }

  /** A redemption is backed to the unit, and can never take out more than came in. */
  lemma RedeemIsBacked(p: Purse, b: Book, sh: Shielded, shares: u64)
    requires Backed(p) && Redeem(p, b, sh, shares).Ok?
    ensures var t := Redeem(p, b, sh, shares).value;
      && Backed(t)
      && t.vaultUsdc + t.userUsdc == p.vaultUsdc + p.userUsdc
      && t.agyldSupply - t.userAgyld == p.agyldSupply - p.userAgyld
      && t.vault.shares == p.vault.shares - shares
      && t.vault.totalIn == p.vault.totalIn && t.vault.totalOut >= p.vault.totalOut
  {
  }

  // --------------------------------------------------------------- accounts

  class TokenAccount {
    var amount: u64
    constructor (amount: u64)
      ensures this.amount == amount
    {
      this.amount := amount;
    }
  }

  class Mint {
    var supply: u64
    constructor (supply: u64)
      ensures this.supply == supply
    {
      this.supply := supply;
    }
  }

  class VaultAccount {
    var shares: u64
    var totalIn: u64
    var totalOut: u64

    /** `initialize`: an empty vault. */
    constructor ()
      ensures View() == Vault(0, 0, 0)
    {
      shares, totalIn, totalOut := 0, 0, 0;
    }

    function View(): Vault
      reads this
    {
      Vault(shares, totalIn, totalOut)
    }
  }

  method TransferChecked(from: TokenAccount, to: TokenAccount, amount: u64) returns (ok: bool)
    requires from != to
    modifies from, to
    ensures ok == Moves(old(from.amount), old(to.amount), amount)
    ensures from.amount == if ok then old(from.amount) - amount else old(from.amount)
    ensures to.amount == if ok then old(to.amount) + amount else old(to.amount)
  {
    ok := amount <= from.amount && to.amount + amount <= U64_MAX;
    if ok {
      from.amount := from.amount - amount;
      to.amount := to.amount + amount;
    }
  }

  method MintTo(mint: Mint, to: TokenAccount, amount: u64) returns (ok: bool)
    modifies mint, to
    ensures ok == (old(mint.supply) + amount <= U64_MAX && old(to.amount) + amount <= U64_MAX)
    ensures mint.supply == if ok then old(mint.supply) + amount else old(mint.supply)
    ensures to.amount == if ok then old(to.amount) + amount else old(to.amount)
  {
    ok := mint.supply + amount <= U64_MAX && to.amount + amount <= U64_MAX;
    if ok {
      mint.supply := mint.supply + amount;
      to.amount := to.amount + amount;
    }
  }

  method Burn(mint: Mint, from: TokenAccount, amount: u64) returns (ok: bool)
    modifies mint, from
    ensures ok == (amount <= old(from.amount) && amount <= old(mint.supply))
    ensures mint.supply == if ok then old(mint.supply) - amount else old(mint.supply)
    ensures from.amount == if ok then old(from.amount) - amount else old(from.amount)
  {
    ok := amount <= from.amount && amount <= mint.supply;
    if ok {
      mint.supply := mint.supply - amount;
      from.amount := from.amount - amount;
    }
  }

  /** The accounts of the Deposit and Redeem contexts. The book and the private aggregate are
      read-only there, so the handlers take them as values. */
  class Accounts {
    const vault: VaultAccount
    const vaultUsdc: TokenAccount
    const agyldMint: Mint
    const userUsdc: TokenAccount
    const userAgyld: TokenAccount

    constructor (vault: VaultAccount, vaultUsdc: TokenAccount, agyldMint: Mint, userUsdc: TokenAccount,
                 userAgyld: TokenAccount)
      requires vaultUsdc != userUsdc && vaultUsdc != userAgyld && userUsdc != userAgyld
      ensures Valid()
      ensures this.vault == vault && this.vaultUsdc == vaultUsdc && this.agyldMint == agyldMint
      ensures this.userUsdc == userUsdc && this.userAgyld == userAgyld
    {
      this.vault, this.vaultUsdc, this.agyldMint := vault, vaultUsdc, agyldMint;
      this.userUsdc, this.userAgyld := userUsdc, userAgyld;
    }

    ghost predicate Valid() {
      vaultUsdc != userUsdc && vaultUsdc != userAgyld && userUsdc != userAgyld
    }

    ghost function View(): Purse
      reads vault, vaultUsdc, agyldMint, userUsdc, userAgyld
    {
      Purse(vault.View(), vaultUsdc.amount, agyldMint.supply, userUsdc.amount, userAgyld.amount)
    }

    /** On an error the runtime discards every write of the instruction. */
    method DepositHandler(book: Book, shielded: Shielded, amount: u64) returns (r: Result<()>)
      requires Valid()
      modifies vault, vaultUsdc, agyldMint, userUsdc, userAgyld
      ensures r.Ok? <==> Deposit(old(View()), book, shielded, amount).Ok?
      ensures r.Err? ==> r.error == Deposit(old(View()), book, shielded, amount).error
      ensures r.Ok? ==> View() == Deposit(old(View()), book, shielded, amount).value
    {
      var _ :- Require(amount > 0, ZeroAmount);
      var q :- NavForPricing(vault.View(), book, shielded);
      var shares :- SharesFor(amount, q);
      var moved := TransferChecked(userUsdc, vaultUsdc, amount);
      var _ :- Require(moved, TokenProgram);
      var minted := MintTo(agyldMint, userAgyld, shares);
      var _ :- Require(minted, TokenProgram);
      vault.shares := SatAdd(vault.shares, shares);
      vault.totalIn := SatAdd(vault.totalIn, amount);
      r := Ok(());
    }

    method RedeemHandler(book: Book, shielded: Shielded, shares: u64) returns (r: Result<()>)
      requires Valid()
      modifies vault, vaultUsdc, agyldMint, userUsdc, userAgyld
      ensures r.Ok? <==> Redeem(old(View()), book, shielded, shares).Ok?
      ensures r.Err? ==> r.error == Redeem(old(View()), book, shielded, shares).error
      ensures r.Ok? ==> View() == Redeem(old(View()), book, shielded, shares).value
    {
      var _ :- Require(shares > 0, ZeroAmount);
      var q :- NavForPricing(vault.View(), book, shielded);
      var _ :- Require(vault.shares >= shares, InsufficientShares);
      var assets :- AssetsFor(shares, q);
      var _ :- Require(assets <= vaultUsdc.amount, InsufficientLiquidity);
      var burned := Burn(agyldMint, userAgyld, shares);
      var _ :- Require(burned, TokenProgram);
      var moved := TransferChecked(vaultUsdc, userUsdc, assets);
      var _ :- Require(moved, TokenProgram);
      vault.shares := SatSub(vault.shares, shares);
      vault.totalOut := SatAdd(vault.totalOut, assets);
      r := Ok(());
    }
  }
}
