/** The two-layer vault as one state machine: Solana, the public rollup, the enclave and the keeper
    between them, with every step of any of them free to interleave with every other. */
module Protocol {
  import opened Words
  import opened Pools
  import opened Books
  import opened Pricing
  import opened Instructions
  import opened Exits
  import BaseLayer
  import Enclave
  import P = Positions

  /** What is fixed when the vault is set up. */
  datatype Setup = Setup(usdc: Pubkey, custodyOwner: Pubkey, authority: Pubkey, ata: (Pubkey, Pubkey) -> Pubkey)

  /** An absorb the keeper has sent and not yet seen land. */
  datatype Absorbing = Absorbing(inflow: u64, outflow: u64)

  datatype World = World(
    // Solana
    vault: Vault,
    vaultUsdc: u64,
    agyldSupply: u64,
    agyld: map<Pubkey, u64>,
    donated: nat,
    committed: Book,
    published: Shielded,
    // public rollup
    live: Book,
    // enclave
    enclave: Enclave.State,
    signed: set<(Pubkey, Bytes)>,
    // keeper, and the past states of Solana its reads may return
    absorbing: Option<Absorbing>,
    vaultSeen: seq<Vault>,
    publishedSeen: seq<Shielded>
  )

  datatype Step =
    // Solana: `funds` is what the user's own USDC account holds; a donation is USDC sent straight
    // to the vault's account
    | Deposit(user: Pubkey, funds: u64, amount: u64)
    | Redeem(user: Pubkey, funds: u64, shares: u64)
    | TransferAgyld(from: Pubkey, to: Pubkey, amount: u64)
    | Donate(amount: u64)
    | OpenPosition(address: Pubkey, owner: Pubkey, sessionKey: Pubkey, sessionExpiry: i64)
    | OwnerSigns(owner: Pubkey, message: Bytes)
    // public rollup
    | TickBook(now: i64)
    | SetRate(index: u8, aprBps: u32, now: i64)
    // keeper: read two past states of Solana, send an absorb, and have it land or get lost
    | KeeperReads(vaultAt: nat, publishedAt: nat)
    | AbsorbLands(now: i64)
    | AbsorbLost
    // enclave: USDC shielded into (or withdrawn from) any account but the custody, and transactions
    | Shield(account: Pubkey, holding: Enclave.TokenHolding)
    | EnclaveTx(ixs: seq<Instruction>, now: i64)
    // between layers
    | CommitBook
    | CommitShielded
    | MigrateBook

  /** What the enclave reads: the current vault and the committed book. */
  function EnvAt(cfg: Setup, w: World, now: i64): Enclave.Env {
    Enclave.Env(w.vault, w.committed, cfg.usdc, cfg.custodyOwner, cfg.authority, cfg.ata, w.signed, now)
  }

  function Held(agyld: map<Pubkey, u64>, user: Pubkey): u64 {
    if user in agyld then agyld[user] else 0
  }

  function PurseOf(w: World, user: Pubkey, funds: u64): BaseLayer.Purse {
    BaseLayer.Purse(w.vault, w.vaultUsdc, w.agyldSupply, funds, Held(w.agyld, user))
  }

  function WithPurse(w: World, user: Pubkey, p: BaseLayer.Purse): World {
    w.(vault := p.vault, vaultUsdc := p.vaultUsdc, agyldSupply := p.agyldSupply,
       agyld := w.agyld[user := p.userAgyld], vaultSeen := w.vaultSeen + [p.vault])
  }

  /** The keeper's absorb step: both custodies as read, less what the live book has marked, never
      below zero; nothing is sent when there is nothing to mark. */
  function Unabsorbed(v: Vault, sh: Shielded, markedIn: u64, markedOut: u64): Option<Absorbing> {
    var inflow := Max(v.totalIn + sh.totalIn - markedIn, 0);
    var outflow := Max(v.totalOut + sh.totalOut - markedOut, 0);
    if (inflow == 0 && outflow == 0) || inflow > U64_MAX || outflow > U64_MAX then None
    else Some(Absorbing(inflow, outflow))
  }

  function OrSame<T>(r: Result<T>, same: T): T { if r.Ok? then r.value else same }

  /** One step. A step that is refused, or that does not apply, leaves the world as it is. */
  function Next(cfg: Setup, w: World, step: Step): World {
    match step
    case Deposit(user, funds, amount) =>
      var r := BaseLayer.Deposit(PurseOf(w, user, funds), w.committed, w.published, amount);
      if r.Ok? then WithPurse(w, user, r.value) else w
    case Redeem(user, funds, shares) =>
      var r := BaseLayer.Redeem(PurseOf(w, user, funds), w.committed, w.published, shares);
      if r.Ok? then WithPurse(w, user, r.value) else w
    case TransferAgyld(from, to, amount) =>
      if from == to || amount > Held(w.agyld, from) || Held(w.agyld, to) + amount > U64_MAX then w
      else w.(agyld := w.agyld[from := Held(w.agyld, from) - amount][to := Held(w.agyld, to) + amount])
    case Donate(amount) =>
      if w.vaultUsdc + amount > U64_MAX then w
      else w.(vaultUsdc := w.vaultUsdc + amount, donated := w.donated + amount)
    case OpenPosition(address, owner, sessionKey, sessionExpiry) =>
      if address in w.enclave.positions then w
      else
        var p := P.Opened(owner).(sessionKey := sessionKey, sessionExpiry := sessionExpiry);
        w.(enclave := w.enclave.(positions := w.enclave.positions[address := p]))
    case OwnerSigns(owner, message) => w.(signed := w.signed + {(owner, message)})
    case TickBook(now) => w.(live := OrSame(Tick(w.live, now), w.live))
    case SetRate(index, aprBps, now) => w.(live := OrSame(SetApr(w.live, index, aprBps, now), w.live))
    case KeeperReads(vaultAt, publishedAt) =>
      if w.absorbing.Some? || vaultAt >= |w.vaultSeen| || publishedAt >= |w.publishedSeen| then w
      else w.(absorbing := Unabsorbed(w.vaultSeen[vaultAt], w.publishedSeen[publishedAt],
                                      w.live.markedIn, w.live.markedOut))
    case AbsorbLands(now) =>
      if w.absorbing.None? then w
      else
        var a := w.absorbing.value;
        w.(live := OrSame(Absorb(w.live, a.inflow, a.outflow, now), w.live), absorbing := None)
    case AbsorbLost => w.(absorbing := None)
    case Shield(account, holding) =>
      if account == cfg.ata(cfg.custodyOwner, cfg.usdc) then w
      else w.(enclave := w.enclave.(tokens := w.enclave.tokens[account := holding]))
    case EnclaveTx(ixs, now) => w.(enclave := Enclave.RunTransaction(EnvAt(cfg, w, now), w.enclave, ixs))
    case CommitBook => w.(committed := w.live)
    case CommitShielded =>
      w.(published := w.enclave.shielded, publishedSeen := w.publishedSeen + [w.enclave.shielded])
    case MigrateBook => w.(live := w.committed, absorbing := None)
  }

  function Run(cfg: Setup, w: World, steps: seq<Step>): World
    decreases |steps|
  {
    if |steps| == 0 then w else Run(cfg, Next(cfg, w, steps[0]), steps[1..])
  }

  /** The vault, the book and the private side as they are set up: empty, with a custody account. */
  function Initial(cfg: Setup, entries: PoolSet, now: i64): World {
    var book := Book(entries, 0, 0, 0, now, 0);
    var custody := cfg.ata(cfg.custodyOwner, cfg.usdc);
    World(
      Vault(0, 0, 0), 0, 0, map[], 0, book, Shielded(0, 0, 0), book,
      Enclave.State(
        Shielded(0, 0, 0), map[],
        [FREE, FREE, FREE, FREE, FREE, FREE, FREE, FREE, FREE, FREE, FREE, FREE, FREE, FREE, FREE, FREE],
        map[custody := Enclave.TokenHolding(cfg.custodyOwner, cfg.usdc, 0)], []),
      {}, None, [Vault(0, 0, 0)], [Shielded(0, 0, 0)])
  }
}
