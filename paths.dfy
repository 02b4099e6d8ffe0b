/**
  The order of `std::path::PathBuf` on Unix, the first key of a file
  reference. Paths compare component by component, not character by
  character: repeated separators, a trailing separator and interior `.`
  segments do not produce components, so `a//b`, `a/b/` and `a/./b` are the
  same path, and `a/b` sorts before `a.b` because the component `a` is a
  prefix of `a.b`.
*/
module Paths {
  import opened Orderings

  /** `std::path::Component` without the Windows-only prefix, in declaration order. */
  datatype Component = RootDir | CurDir | ParentDir | Normal(name: string)

  /** The pieces of `path` between separators, including empty ones. */
  function Segments(path: string): (r: seq<string>)
    ensures |r| >= 1
  {
    if path == [] then [""]
    else
      var rest := Segments(path[1..]);
      if path[0] == '/' then [""] + rest else [[path[0]] + rest[0]] + rest[1..]
  }

  /** Segments that are components: empty pieces and `.` are skipped, `..` is the parent. */
  function BodyComponents(segments: seq<string>): seq<Component>
  {
    if segments == [] then []
    else
      var head := segments[0];
      var rest := BodyComponents(segments[1..]);
      if head == "" || head == "." then rest
      else if head == ".." then [ParentDir] + rest
      else [Normal(head)] + rest
  }

  /**
    `Path::components`: a leading separator gives the root; a relative path
    that is `.` or starts with `./` keeps one leading `.`.
  */
  function Components(path: string): seq<Component>
  {
    var rooted := path != [] && path[0] == '/';
    var current := !rooted && (path == "." || (|path| >= 2 && path[..2] == "./"));
    (if rooted then [RootDir] else if current then [CurDir] else []) + BodyComponents(Segments(path))
  }

  function Rank(c: Component): nat {
    match c
    case RootDir => 1
    case CurDir => 2
    case ParentDir => 3
    case Normal(_) => 4
  }

  /** The derived order of `Component`: the variant first, then the name of a normal component. */
  function CompareComponent(a: Component, b: Component): Ordering {
    if a.Normal? && b.Normal? then CompareStrings(a.name, b.name) else CompareInt(Rank(a), Rank(b))
  }

  function ComparePaths(a: string, b: string): Ordering {
    CompareLex(Components(a), Components(b), CompareComponent)
  }

  lemma ComponentTotalOrder()
    ensures TotalOrder(CompareComponent)
  {
    StringsTotalOrder();
    forall a, b ensures CompareComponent(b, a) == CompareComponent(a, b).Flip() {
      if a.Normal? && b.Normal? {
        assert CompareStrings(b.name, a.name) == CompareStrings(a.name, b.name).Flip();
      }
    }
    forall a, b, c | CompareComponent(a, b) != Greater && CompareComponent(b, c) != Greater
      ensures CompareComponent(a, c) != Greater
    {
      if a.Normal? && b.Normal? && c.Normal? {
        assert CompareStrings(a.name, b.name) != Greater && CompareStrings(b.name, c.name) != Greater;
      }
    }
    forall a, b | CompareComponent(a, b) == Equal ensures a == b {
      if a.Normal? && b.Normal? {
        assert CompareStrings(a.name, b.name) == Equal;
      }
    }
  }

  /** Path order is a total preorder whose ties are exactly the paths with the same components. */
  lemma PathsTotalPreorder()
    ensures TotalPreorder(ComparePaths)
    ensures forall a, b :: ComparePaths(a, b) == Equal <==> Components(a) == Components(b)
  {
    ComponentTotalOrder();
    forall a, b ensures ComparePaths(b, a) == ComparePaths(a, b).Flip() {
      LexFlip(Components(a), Components(b), CompareComponent);
    }
    forall a, b, c | ComparePaths(a, b) != Greater && ComparePaths(b, c) != Greater
      ensures ComparePaths(a, c) != Greater
    {
      LexTransitive(Components(a), Components(b), Components(c), CompareComponent);
    }
    forall a, b ensures ComparePaths(a, b) == Equal <==> Components(a) == Components(b) {
      LexEqual(Components(a), Components(b), CompareComponent);
    }
  }

  /** The chain property of path order, for use in orders that extend it. */
  lemma PathsChain(a: string, b: string, c: string)
    ensures Chains(ComparePaths(a, b), ComparePaths(b, c), ComparePaths(a, c))
  {
    PathsTotalPreorder();
    PreorderChains(ComparePaths, a, b, c);
  }

  /** The pieces of the example paths that start with `a/`. */
  lemma SeparatedSegments()
    ensures Segments("a/b") == ["a", "b"]
    ensures Segments("a//b") == ["a", "", "b"]
    ensures Segments("a/b/") == ["a", "b", ""]
  {
    assert Segments("b") == ["b"] by {
      assert "b"[1..] == "" && ['b'] + "" == "b";
    }
    assert Segments("/b") == ["", "b"] by {
      assert "/b"[1..] == "b";
    }
    assert Segments("b/") == ["b", ""] by {
      assert "b/"[1..] == "/" && "/"[1..] == "" && ['b'] + "" == "b";
    }
    assert Segments("/b/") == ["", "b", ""] by {
      assert "/b/"[1..] == "b/";
    }
    assert ['a'] + "" == "a";
    assert Segments("a/b") == ["a", "b"] by {
      assert "a/b"[1..] == "/b" && ["", "b"][1..] == ["b"];
    }
    assert Segments("a//b") == ["a", "", "b"] by {
      assert "a//b"[1..] == "//b" && "//b"[1..] == "/b";
      assert ["", "", "b"][1..] == ["", "b"];
    }
    assert Segments("a/b/") == ["a", "b", ""] by {
      assert "a/b/"[1..] == "/b/" && ["", "b", ""][1..] == ["b", ""];
    }
  }

  lemma DottedSegments()
    ensures Segments("a.b") == ["a.b"]
  {
    assert "b"[1..] == "" && ".b"[1..] == "b" && "a.b"[1..] == ".b";
    assert Segments("b") == ["b"] by {
      assert ['b'] + "" == "b";
    }
    assert Segments(".b") == [".b"] by {
      assert ['.'] + "b" == ".b";
    }
    assert ['a'] + ".b" == "a.b";
  }

  lemma NormalComponent(head: string, rest: seq<string>)
    requires head != [] && head[0] != '.'
    ensures BodyComponents([head] + rest) == [Normal(head)] + BodyComponents(rest)
  {
    assert ([head] + rest)[1..] == rest;
    assert head != "." && head != ".." by {
      assert "."[0] == '.' && ".."[0] == '.';
    }
  }

  lemma EmptySegment(rest: seq<string>)
    ensures BodyComponents([""] + rest) == BodyComponents(rest)
  {
    assert ([""] + rest)[1..] == rest;
  }

  /** A path that starts with neither a separator nor a dot has just the components of its segments. */
  lemma RelativeComponents(path: string)
    requires path != [] && path[0] != '/' && path[0] != '.'
    ensures Components(path) == BodyComponents(Segments(path))
  {
    assert path != "." by {
      assert "."[0] == '.';
    }
    if |path| >= 2 {
      assert path[..2] != "./" by {
        assert path[..2][0] == path[0] && "./"[0] == '.';
      }
    }
  }

  /** The components of the example paths. */
  lemma ExampleComponents()
    ensures Components("a/b") == Components("a//b") == Components("a/b/") == [Normal("a"), Normal("b")]
    ensures Components("a.b") == [Normal("a.b")]
  {
    SeparatedSegments();
    DottedSegments();
    var ab := [Normal("a"), Normal("b")];
    assert BodyComponents(["b"]) == [Normal("b")] by {
      NormalComponent("b", []);
      assert ["b"] == ["b"] + [];
    }
    assert BodyComponents(["b", ""]) == [Normal("b")] by {
      NormalComponent("b", [""]);
      EmptySegment([]);
      assert [""] == [""] + [] && ["b", ""] == ["b"] + [""];
    }
    assert BodyComponents(["a", "b"]) == ab by {
      NormalComponent("a", ["b"]);
      assert ["a", "b"] == ["a"] + ["b"];
    }
    assert BodyComponents(["a", "", "b"]) == ab by {
      NormalComponent("a", ["", "b"]);
      EmptySegment(["b"]);
      assert ["", "b"] == [""] + ["b"] && ["a", "", "b"] == ["a"] + ["", "b"];
    }
    assert BodyComponents(["a", "b", ""]) == ab by {
      NormalComponent("a", ["b", ""]);
      assert ["a", "b", ""] == ["a"] + ["b", ""];
    }
    assert BodyComponents(["a.b"]) == [Normal("a.b")] by {
      NormalComponent("a.b", []);
      assert ["a.b"] == ["a.b"] + [];
    }
    RelativeComponents("a/b");
    RelativeComponents("a//b");
    RelativeComponents("a/b/");
    RelativeComponents("a.b");
  }

  /** Repeated and trailing separators produce no components: `a//b` and `a/b/` are the same path. */
  lemma SeparatorSpellings()
    ensures ComparePaths("a//b", "a/b/") == Equal
  {
    ExampleComponents();
    PathsTotalPreorder();
  }

  /** Component order differs from character order: `a/b` sorts before `a.b`, as a string after it. */
  lemma ComponentOrderExample()
    ensures ComparePaths("a/b", "a.b") == Less && CompareStrings("a/b", "a.b") == Greater
  {
    ExampleComponents();
    assert CompareStrings("a", "a.b") == Less;
  }
}
