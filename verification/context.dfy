/**
  `SystemState` of the front-end crate: the older, register-only copy of the
  CPU state and its pair accessors. It agrees with `System` on every register;
  `ProjectionCommutes` states that the two copies of each accessor coincide.
 */
module Context {
  import opened Bits
  import System

  datatype SystemState = SystemState(
    a: byte, f: byte, h: byte, l: byte, b: byte, c: byte, d: byte, e: byte,
    pc: word, sp: word)

  function AF(s: SystemState): (r: word)
    ensures Hi(r) == s.a && Lo(r) == s.f
  {
    Join(s.a, s.f)
  }

  function BC(s: SystemState): (r: word)
    ensures Hi(r) == s.b && Lo(r) == s.c
  {
    Join(s.b, s.c)
  }

  function DE(s: SystemState): (r: word)
    ensures Hi(r) == s.d && Lo(r) == s.e
  {
    Join(s.d, s.e)
  }

  function HL(s: SystemState): (r: word)
    ensures Hi(r) == s.h && Lo(r) == s.l
  {
    Join(s.h, s.l)
  }

  function SetAF(s: SystemState, v: word): (r: SystemState)
    ensures AF(r) == v
    ensures r.(a := s.a, f := s.f) == s
  {
    JoinOfHiLo(v);
    s.(a := Hi(v), f := Lo(v))
  }

  function SetBC(s: SystemState, v: word): (r: SystemState)
    ensures BC(r) == v
    ensures r.(b := s.b, c := s.c) == s
  {
    JoinOfHiLo(v);
    s.(b := Hi(v), c := Lo(v))
  }

  function SetDE(s: SystemState, v: word): (r: SystemState)
    ensures DE(r) == v
    ensures r.(d := s.d, e := s.e) == s
  {
    JoinOfHiLo(v);
    s.(d := Hi(v), e := Lo(v))
  }

  function SetHL(s: SystemState, v: word): (r: SystemState)
    ensures HL(r) == v
    ensures r.(h := s.h, l := s.l) == s
  {
    JoinOfHiLo(v);
    s.(h := Hi(v), l := Lo(v))
  }

  /** `SystemState::new`: the post-boot register values. */
  function New(): (r: SystemState)
    ensures AF(r) == 0x01B0 && BC(r) == 0x0013 && DE(r) == 0x00D8 && HL(r) == 0x014D
    ensures r.sp == 0xFFFE && r.pc == 0x0100
    ensures r.a == 0x01 && r.f == 0xB0 && r.b == 0x00 && r.c == 0x13 && r.d == 0x00 && r.e == 0xD8 && r.h == 0x01 && r.l == 0x4D
  {
    var zero := SystemState(0, 0, 0, 0, 0, 0, 0, 0, 0, 0);
    SetHL(SetDE(SetBC(SetAF(zero, 0x01B0), 0x0013), 0x00D8), 0x014D).(sp := 0xFFFE, pc := 0x0100)
  }

  /** A set followed by a get of the same pair is the identity, and a get followed by a set changes nothing. */
  lemma PairRoundTrips(s: SystemState, v: word)
    ensures AF(SetAF(s, v)) == v && BC(SetBC(s, v)) == v && DE(SetDE(s, v)) == v && HL(SetHL(s, v)) == v
    ensures SetAF(s, AF(s)) == s && SetBC(s, BC(s)) == s && SetDE(s, DE(s)) == s && SetHL(s, HL(s)) == s
  {
    HiLoOfJoin(s.a, s.f);
    HiLoOfJoin(s.b, s.c);
    HiLoOfJoin(s.d, s.e);
    HiLoOfJoin(s.h, s.l);
  }

  /** The registers of the full machine state, as this crate's record. */
  function Project(s: System.State): (r: SystemState)
    ensures r.a == s.a && r.f == s.f && r.b == s.b && r.c == s.c
    ensures r.d == s.d && r.e == s.e && r.h == s.h && r.l == s.l
    ensures r.pc == s.pc && r.sp == s.sp
  {
    SystemState(s.a, s.f, s.h, s.l, s.b, s.c, s.d, s.e, s.pc, s.sp)
  }

  /**
    The two copies of the accessors agree: reading or setting a pair here is
    the same as doing so on the full state and then projecting.
   */
  lemma ProjectionCommutes(s: System.State, v: word)
    ensures AF(Project(s)) == System.AF(s) && BC(Project(s)) == System.BC(s)
    ensures DE(Project(s)) == System.DE(s) && HL(Project(s)) == System.HL(s)
    ensures SetAF(Project(s), v) == Project(System.SetAF(s, v))
    ensures SetBC(Project(s), v) == Project(System.SetBC(s, v))
    ensures SetDE(Project(s), v) == Project(System.SetDE(s, v))
    ensures SetHL(Project(s), v) == Project(System.SetHL(s, v))
  {
  }

  /** Both constructors produce the same registers. */
  lemma NewAgrees()
    ensures New() == Project(System.New())
  {
  }
}
