// The design record that the population logic of Code/Gnowee_Utilities.py
// and the search operators of Code/Metaheuristics.py work on: a `Parent` with
// its identifier, fitness, particle count and MCNP geometry (the material key
// list, the cells and the surfaces), each reduced to the fields that this
// code reads or writes.
module Design {

  /** The surface comments the operators test:
      "NAS", a comment ending in "foil", a comment ending in "TOAD",
      "Holder", "Holder Fill", the comment shared by the two surfaces of one
      vertical cell (it starts with "vert"; `tag` stands for the rest of it),
      the plane "horiz start" below the first horizontal cell, the planes
      "horiz #k" above each horizontal cell, and every other comment. */
  datatype Role =
    | NasRole | FoilRole | ToadRole | HolderRole | HolderFillRole
    | VertRole(tag: int) | HorizStartRole | HorizRole(k: int) | OtherRole
  {
    /** `s.c[0:5] == "horiz"`: "horiz start" and every "horiz #k". */
    predicate HorizPrefix()
    {
      HorizStartRole? || HorizRole?
    }
  }

  /** The cell comments the operators test: 'vert', 'horiz', 'eta fill'. */
  datatype CellKind = VertCell | HorizCell | FillCell | OtherCell

  /** The fields of an `MCNP_Surface` the operators use. */
  datatype Surface = Surface(name: int, role: Role, vz: real, hz: real, r: real, d: real)

  /** The fields of an `MCNP_Cell` the operators use; `geom` is the surface
      number that `int(geom[1:4])` reads from the cell's geometry string. */
  datatype Cell = Cell(name: int, m: int, d: real, geom: int, kind: CellKind)

  /** A candidate design: `ident`, `geom.matls`, `geom.cells`,
      `geom.surfaces`, `rset.nps`, `fit` and `fixed_mats`. */
  datatype Parent = Parent(ident: int, matls: seq<string>, cells: seq<Cell>,
                           surfaces: seq<Surface>, nps: real, fit: real, fixedMats: int)

  /** The cells whose material the operators change: 'vert' and 'horiz'. */
  predicate IsLayer(c: Cell)
  {
    c.kind == VertCell || c.kind == HorizCell
  }

  function FitOf(p: Parent): real
  {
    p.fit
  }
}
