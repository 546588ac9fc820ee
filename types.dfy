/** Data shapes shared by the room registry and the role distributor
    (server/src/types.ts). */
module Types {

  datatype Option<+T> = None | Some(value: T)

  /** The five role kinds a player can be dealt. */
  datatype Role = Mafia | Doktor | Kurva | Policajac | Civil

  /** How many of each role a room deals; their sum is the room's capacity. */
  datatype RoleConfig = RoleConfig(mafia: nat, doktor: nat, kurva: nat, policajac: nat, civil: nat)

  /** A room member: its connection id, its display name and, once the game
      has started, its role. */
  datatype Player = Player(id: string, name: string, role: Option<Role>)

  /** A room. `id` and `code` are both set to the room code at creation. */
  datatype Game = Game(
    id: string,
    code: string,
    hostId: string,
    players: seq<Player>,
    roleConfig: RoleConfig,
    started: bool)

  /** The configured count of one role kind. */
  function Count(cfg: RoleConfig, r: Role): nat
  {
    match r
    case Mafia => cfg.mafia
    case Doktor => cfg.doktor
    case Kurva => cfg.kurva
    case Policajac => cfg.policajac
    case Civil => cfg.civil
  }

  /** The sum of the five counts: the number of roles dealt, and the number of
      players a room admits. */
  function Total(cfg: RoleConfig): nat
  {
    cfg.mafia + cfg.doktor + cfg.kurva + cfg.policajac + cfg.civil
  }

  /** The configured roles as a multiset, each kind with its configured count. */
  function RoleMultiset(cfg: RoleConfig): multiset<Role>
  {
    multiset{}[Mafia := cfg.mafia][Doktor := cfg.doktor][Kurva := cfg.kurva]
      [Policajac := cfg.policajac][Civil := cfg.civil]
  }

  /** The role's wire name. */
  function RoleName(r: Role): string
  {
    match r
    case Mafia => "mafia"
    case Doktor => "doktor"
    case Kurva => "kurva"
    case Policajac => "policajac"
    case Civil => "civil"
  }

  lemma RoleMultisetCounts(cfg: RoleConfig, r: Role)
    ensures RoleMultiset(cfg)[r] == Count(cfg, r)
    ensures |RoleMultiset(cfg)| == Total(cfg)
  {
  }

  predicate AllRoled(ps: seq<Player>)
  {
    forall k :: 0 <= k < |ps| ==> ps[k].role.Some?
  }

  /** The roles of a fully dealt roster, in player order. */
  function RolesOf(ps: seq<Player>): (r: seq<Role>)
    requires AllRoled(ps)
    ensures |r| == |ps|
  {
    seq(|ps|, k requires 0 <= k < |ps| => ps[k].role.value)
  }
}
