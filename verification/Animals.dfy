/** Animal forms, identity masks and the geometry of a single step.

    A mask is the set of forms a physical piece may still be. Chick and Hen are two forms of one
    lineage, so a mask projects onto four lineages, and the quota rule (one piece of each lineage per
    origin side) is stated over lineages only.
 */
module Animals {

  datatype Option<+T> = None | Some(value: T) {
    predicate IsFailure() {
      None?
    }
    function PropagateFailure<U>(): Option<U>
      requires None?
    {
      None
    }
    function Extract(): T
      requires Some?
    {
      value
    }
  }

  function Flag(b: bool): int {
    if b then 1 else 0
  }

  datatype Side = South | North {
    function Opposite(): Side {
      if South? then North else South
    }
  }

  datatype Animal = Chick | Giraffe | Elephant | Lion | Hen

  datatype Lineage = ChickLine | GiraffeLine | ElephantLine | LionLine

  function Rank(x: Lineage): (r: int)
    ensures 0 <= r < 4
  {
    match x
    case ChickLine => 0
    case GiraffeLine => 1
    case ElephantLine => 2
    case LionLine => 3
  }

  /** The four-bit set of lineages. */
  datatype Lineages = Lineages(ch: bool, g: bool, e: bool, l: bool) {
    predicate Has(x: Lineage) {
      match x
      case ChickLine => ch
      case GiraffeLine => g
      case ElephantLine => e
      case LionLine => l
    }

    function With(x: Lineage): Lineages {
      match x
      case ChickLine => this.(ch := true)
      case GiraffeLine => this.(g := true)
      case ElephantLine => this.(e := true)
      case LionLine => this.(l := true)
    }
  }

  const NO_LINEAGES := Lineages(false, false, false, false)

  /** The five-bit set of forms, in the order Chick, Giraffe, Elephant, Lion, Hen. */
  datatype Mask = Mask(chick: bool, giraffe: bool, elephant: bool, lion: bool, hen: bool) {
    predicate Has(a: Animal) {
      match a
      case Chick => chick
      case Giraffe => giraffe
      case Elephant => elephant
      case Lion => lion
      case Hen => hen
    }

    predicate IsEmpty() {
      !chick && !giraffe && !elephant && !lion && !hen
    }

    function Meet(other: Mask): Mask {
      Mask(chick && other.chick, giraffe && other.giraffe, elephant && other.elephant,
           lion && other.lion, hen && other.hen)
    }

    function Lines(): Lineages {
      Lineages(chick || hen, giraffe, elephant, lion)
    }

    /** Retains the forms whose lineage is supported. */
    function Keep(ls: Lineages): Mask {
      Mask(chick && ls.ch, giraffe && ls.g, elephant && ls.e, lion && ls.l, hen && ls.ch)
    }

    function Promoted(): Mask {
      if chick then this.(chick := false, hen := true) else this
    }

    function Demoted(): Mask {
      if hen then this.(hen := false, chick := true) else this
    }

    function WithoutLion(): Mask {
      this.(lion := false)
    }
  }

  const NO_FORMS := Mask(false, false, false, false, false)
  const ALL_ANIMALS := Mask(true, true, true, true, false)
  const LION_ONLY := Mask(false, false, false, true, false)

  const BOARD_WIDTH := 3
  const BOARD_HEIGHT := 4
  const BOARD_SIZE := 12
  const PIECE_COUNT := 8
  const FIRST_HAND_SLOT := 12
  const SOURCE_COUNT := 20
  const PIECES_PER_ORIGIN := 4
  const TURN_LIMIT := 256

  function Row(square: int): int {
    square / BOARD_WIDTH
  }

  function Col(square: int): int {
    square % BOARD_WIDTH
  }

  function Forward(side: Side): int {
    if side.South? then -1 else 1
  }

  /** Whether a form may make the displacement, forward being up the board for South. */
  predicate Allowed(form: Animal, side: Side, dr: int, dc: int) {
    match form
    case Chick => dr == Forward(side) && dc == 0
    case Giraffe => (dr == 0) != (dc == 0)
    case Elephant => dr != 0 && dc != 0
    case Lion => true
    case Hen => dr == Forward(side) || (dr == 0 && dc != 0) || (dr == -Forward(side) && dc == 0)
  }

  predicate Reaches(form: Animal, side: Side, from: int, to: int) {
    var dr, dc := Row(to) - Row(from), Col(to) - Col(from);
    -1 <= dr <= 1 && -1 <= dc <= 1 && (dr != 0 || dc != 0) && Allowed(form, side, dr, dc)
  }

  /** The forms able to step from one board square to another. */
  function Movers(side: Side, from: int, to: int): Mask {
    Mask(Reaches(Chick, side, from, to), Reaches(Giraffe, side, from, to),
         Reaches(Elephant, side, from, to), Reaches(Lion, side, from, to),
         Reaches(Hen, side, from, to))
  }

  predicate IsBackRank(square: int, side: Side) {
    Row(square) == if side.South? then 0 else BOARD_HEIGHT - 1
  }

  predicate IsBoardSquare(position: int) {
    0 <= position < BOARD_SIZE
  }

  predicate IsHandPosition(position: int) {
    FIRST_HAND_SLOT <= position < SOURCE_COUNT
  }
}
