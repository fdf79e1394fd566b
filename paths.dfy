/**
  `std::path::PathBuf` as the sequence of its components, which is what
  Rust compares for equality and order. Only the root and normal
  components are modelled.
 */
module Paths {
  import opened Maybe

  datatype Component = RootDir | Normal(name: string)

  /** A root can only be the first component of a path. */
  predicate WellFormed(cs: seq<Component>)
  {
    forall i :: 0 < i < |cs| ==> cs[i].Normal?
  }

  type Path = cs: seq<Component> | WellFormed(cs) witness []

  predicate IsAbsolute(p: Path)
  {
    |p| > 0 && p[0] == RootDir
  }

  /** The path `name` made of one normal component (a package or file name). */
  function Named(name: string): Path
  {
    [Normal(name)]
  }

  /** `Path::join`: an absolute argument replaces the base. */
  function Join(base: Path, p: Path): (r: Path)
  {
    if IsAbsolute(p) then p else base + p
  }

  /** `p.strip_prefix("/").unwrap_or(p)`: drops the root of an absolute path. */
  function StripRoot(p: Path): (r: Path)
    ensures !IsAbsolute(r)
    ensures IsAbsolute(p) ==> [RootDir] + r == p
    ensures !IsAbsolute(p) ==> r == p
  {
    if IsAbsolute(p) then p[1..] else p
  }

  /** `Path::file_name`: the last component when it is a normal one. */
  function FileName(p: Path): (r: Option<string>)
    ensures r.Some? <==> |p| > 0 && p[|p| - 1].Normal?
  {
    if |p| > 0 && p[|p| - 1].Normal? then Some(p[|p| - 1].name) else None
  }

  /** `Path::display` of the component form: names separated by `/`. */
  function Display(p: Path): string
  {
    if IsAbsolute(p) then "/" + Slashed(p[1..]) else Slashed(p)
  }

  function Slashed(cs: seq<Component>): string
  {
    if cs == [] then ""
    else
      var head := if cs[0].Normal? then cs[0].name else "/";
      if |cs| == 1 then head else head + "/" + Slashed(cs[1..])
  }

  // ----- Order -----

  /** Lexicographic order of names; by code point, which is also the order of their UTF-8 bytes. */
  predicate NameLess(a: string, b: string)
  {
    if a == [] then b != []
    else b != [] && (a[0] < b[0] || (a[0] == b[0] && NameLess(a[1..], b[1..])))
  }

  /** The derived order of `Component`: the root comes before every normal component. */
  predicate ComponentLess(x: Component, y: Component)
  {
    match (x, y)
    case (RootDir, Normal(_)) => true
    case (Normal(a), Normal(b)) => NameLess(a, b)
    case _ => false
  }

  /** `Ord for Path`: lexicographic over the components. */
  predicate PathLess(p: seq<Component>, q: seq<Component>)
  {
    if p == [] then q != []
    else q != [] && (ComponentLess(p[0], q[0]) || (p[0] == q[0] && PathLess(p[1..], q[1..])))
  }

  lemma {:induction false} NameLessIrreflexive(a: string)
    ensures !NameLess(a, a)
  {
    if a != [] { NameLessIrreflexive(a[1..]); }
  }

  lemma {:induction false} NameLessTransitive(a: string, b: string, c: string)
    requires NameLess(a, b) && NameLess(b, c)
    ensures NameLess(a, c)
  {
    if a != [] && a[0] == b[0] && b[0] == c[0] {
      NameLessTransitive(a[1..], b[1..], c[1..]);
    }
  }

  lemma {:induction false} NameLessTotal(a: string, b: string)
    ensures a == b || NameLess(a, b) || NameLess(b, a)
  {
    if a != [] && b != [] && a[0] == b[0] {
      NameLessTotal(a[1..], b[1..]);
      if a[1..] == b[1..] {
        assert a == [a[0]] + a[1..] && b == [b[0]] + b[1..];
      }
    }
  }

  lemma ComponentLessIrreflexive(x: Component)
    ensures !ComponentLess(x, x)
  {
    if x.Normal? { NameLessIrreflexive(x.name); }
  }

  lemma ComponentLessTransitive(x: Component, y: Component, z: Component)
    requires ComponentLess(x, y) && ComponentLess(y, z)
    ensures ComponentLess(x, z)
  {
    if x.Normal? { NameLessTransitive(x.name, y.name, z.name); }
  }

  lemma ComponentLessTotal(x: Component, y: Component)
    ensures x == y || ComponentLess(x, y) || ComponentLess(y, x)
  {
    if x.Normal? && y.Normal? { NameLessTotal(x.name, y.name); }
  }

  lemma {:induction false} PathLessIrreflexive(p: seq<Component>)
    ensures !PathLess(p, p)
  {
    if p != [] {
      ComponentLessIrreflexive(p[0]);
      PathLessIrreflexive(p[1..]);
    }
  }

  lemma {:induction false} PathLessTransitive(p: seq<Component>, q: seq<Component>, r: seq<Component>)
    requires PathLess(p, q) && PathLess(q, r)
    ensures PathLess(p, r)
  {
    if p != [] {
      if p[0] == q[0] && q[0] == r[0] {
        ComponentLessIrreflexive(p[0]);
        PathLessTransitive(p[1..], q[1..], r[1..]);
      } else if ComponentLess(p[0], q[0]) && ComponentLess(q[0], r[0]) {
        ComponentLessTransitive(p[0], q[0], r[0]);
      }
    }
  }

  lemma PathLessAsymmetric(p: seq<Component>, q: seq<Component>)
    ensures !(PathLess(p, q) && PathLess(q, p))
  {
    PathLessIrreflexive(p);
    if PathLess(p, q) && PathLess(q, p) {
      PathLessTransitive(p, q, p);
    }
  }

  lemma {:induction false} PathLessTotal(p: seq<Component>, q: seq<Component>)
    ensures p == q || PathLess(p, q) || PathLess(q, p)
  {
    if p != [] && q != [] {
      ComponentLessTotal(p[0], q[0]);
      if p[0] == q[0] {
        PathLessTotal(p[1..], q[1..]);
        if p[1..] == q[1..] {
          assert p == [p[0]] + p[1..] && q == [q[0]] + q[1..];
        }
      }
    }
  }

  /** Rust compares `/a` and `a` as different paths, the absolute one first. */
  lemma AbsoluteBeforeRelative(cs: seq<Component>)
    requires |cs| > 0 && cs[0].Normal?
    ensures PathLess([RootDir] + cs, cs)
  {
  }
}
