/**
 * The client's deferred re-render queue: copy-block positions whose copied
 * state or rotation changed are queued, and at the end of the next client
 * tick every chunk section around each queued copy block is marked dirty.
 */
module RenderQueue {
  import opened Wrappers
  import opened World

  /** A chunk section: a 16x16x16 cube of blocks, addressed by section coordinates. */
  datatype Section = Section(x: int, y: int, z: int)

  /**
   * The section holding a block. The source shifts right by four; for a
   * positive divisor Dafny's division rounds toward negative infinity just
   * like an arithmetic shift, so negative coordinates land in the right section.
   */
  function SectionOf(p: Pos): (s: Section)
    ensures 16 * s.x <= p.x < 16 * s.x + 16
    ensures 16 * s.y <= p.y < 16 * s.y + 16
    ensures 16 * s.z <= p.z < 16 * s.z + 16
  {
    Section(p.x / 16, p.y / 16, p.z / 16)
  }

  /** `s` lies within one section of `c` along every axis. */
  predicate Near(c: Section, s: Section)
  {
    -1 <= s.x - c.x <= 1 && -1 <= s.y - c.y <= 1 && -1 <= s.z - c.z <= 1
  }

  /** The section at offset (dx, dy, dz) from `c`. */
  function Offset(c: Section, dx: int, dy: int, dz: int): Section
  {
    Section(c.x + dx, c.y + dy, c.z + dz)
  }

  /** The 3x3x3 block of sections centred on the section holding `p`. */
  function Neighbourhood(p: Pos): set<Section>
  {
    var c := SectionOf(p);
    set dx, dy, dz | -1 <= dx <= 1 && -1 <= dy <= 1 && -1 <= dz <= 1 :: Offset(c, dx, dy, dz)
  }

  lemma NeighbourhoodMembers(p: Pos)
    ensures forall s :: s in Neighbourhood(p) <==> Near(SectionOf(p), s)
  {
    var c := SectionOf(p);
    forall s | Near(c, s)
      ensures s in Neighbourhood(p)
    {
      assert s == Offset(c, s.x - c.x, s.y - c.y, s.z - c.z);
    }
  }

  /** The block entity at `p` is a legacy copy-block entity. */
  predicate IsCopyEntityAt(entities: map<Pos, BlockEntityView>, p: Pos)
  {
    p in entities && entities[p].CopyEntity? && entities[p].kind == LegacyCopy
  }

  /** Every section the drain marks for the positions `ps`. */
  function Marks(ps: set<Pos>, entities: map<Pos, BlockEntityView>): set<Section>
  {
    set p, s | p in ps && IsCopyEntityAt(entities, p) && s in Neighbourhood(p) :: s
  }

  lemma {:induction false} MarksAdd(done: set<Pos>, p: Pos, entities: map<Pos, BlockEntityView>)
    ensures Marks(done + {p}, entities)
         == Marks(done, entities) + (if IsCopyEntityAt(entities, p) then Neighbourhood(p) else {})
  {
    var lhs := Marks(done + {p}, entities);
    var rhs := Marks(done, entities) + (if IsCopyEntityAt(entities, p) then Neighbourhood(p) else {});
    forall s | s in lhs ensures s in rhs {
      var q :| q in done + {p} && IsCopyEntityAt(entities, q) && s in Neighbourhood(q);
      if q != p {
        assert s in Marks(done, entities);
      }
    }
  }

  /** A queued section is one the client renderer will rebuild. */
  class SectionRenderer {
    var dirty: set<Section>

    constructor ()
      ensures dirty == {}
    {
      dirty := {};
    }

    method SetSectionDirty(s: Section)
      modifies this
      ensures dirty == old(dirty) + {s}
    {
      dirty := dirty + {s};
    }
  }

  /** The set of block positions awaiting a re-render. */
  class PendingUpdates {
    var pending: set<Pos>

    constructor ()
      ensures pending == {}
    {
      pending := {};
    }

    method QueueBlockUpdate(p: Pos)
      modifies this
      ensures pending == old(pending) + {p}
    {
      pending := pending + {p};
    }

    /**
     * Marks the section holding `p` and its 26 neighbours, sweeping the
     * offsets in x, then y, then z order.
     */
    static method MarkAround(renderer: SectionRenderer, p: Pos)
      modifies renderer
      ensures renderer.dirty == old(renderer.dirty) + Neighbourhood(p)
    {
      var c := SectionOf(p);
      ghost var d0 := renderer.dirty;
      for dx := -1 to 2
        invariant forall s :: s in renderer.dirty <==> s in d0 || (Near(c, s) && s.x - c.x < dx)
      {
        for dy := -1 to 2
          invariant forall s :: s in renderer.dirty <==> s in d0 || (Near(c, s) && (s.x - c.x < dx || (s.x - c.x == dx && s.y - c.y < dy)))
        {
          for dz := -1 to 2
            invariant forall s :: s in renderer.dirty <==> (s in d0 ||
              (Near(c, s) && (s.x - c.x < dx || (s.x - c.x == dx && (s.y - c.y < dy || (s.y - c.y == dy && s.z - c.z < dz))))))
          {
            renderer.SetSectionDirty(Section(c.x + dx, c.y + dy, c.z + dz));
          }
        }
      }
      NeighbourhoodMembers(p);
      assert renderer.dirty == d0 + Neighbourhood(p);
    }

    /**
     * The end-of-tick drain. With a level and a renderer present it marks
     * the neighbourhood of every queued position that holds a copy-block
     * entity, skips the rest, and empties the queue; otherwise it leaves
     * the queue for a later tick.
     */
    method OnClientTick(endPhase: bool, level: Level?, renderer: SectionRenderer?)
      modifies this, renderer
      ensures !(endPhase && old(pending) != {} && level != null && renderer != null) ==>
        pending == old(pending) && (renderer != null ==> renderer.dirty == old(renderer.dirty))
      ensures endPhase && old(pending) != {} && level != null && renderer != null ==>
        pending == {} && renderer.dirty == old(renderer.dirty) + Marks(old(pending), level.entities)
    {
      if endPhase && pending != {} {
        if level != null && renderer != null {
          var remaining := pending;
          ghost var done: set<Pos> := {};
          while remaining != {}
            invariant pending == old(pending)
            invariant remaining + done == pending && remaining !! done
            invariant renderer.dirty == old(renderer.dirty) + Marks(done, level.entities)
            decreases remaining
          {
            var p :| p in remaining;
            MarksAdd(done, p, level.entities);
            if IsCopyEntityAt(level.entities, p) {
              MarkAround(renderer, p);
            }
            remaining := remaining - {p};
            done := done + {p};
          }
          pending := {};
        }
      }
    }
  }
}
