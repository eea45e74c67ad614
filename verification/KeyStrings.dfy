/**
 Keys as strings. The engine compares keys and indexes results by their printed form, so the printed
 form must tell keys apart and order them totally.
 */
module KeyStrings {
  import opened Kube

  // strings.Compare(a, b) < 0
  predicate StringLess(a: string, b: string) {
    if b == "" then false
    else if a == "" then true
    else if a[0] != b[0] then a[0] < b[0]
    else StringLess(a[1..], b[1..])
  }

  lemma {:induction false} StringLessTotal(a: string, b: string)
    ensures a == b || StringLess(a, b) || StringLess(b, a)
    ensures !(StringLess(a, b) && StringLess(b, a))
    ensures !StringLess(a, a)
  {
    if a != "" {
      StringLessTotal(a[1..], if b == "" then "" else b[1..]);
      if b != "" && a[0] == b[0] && a[1..] == b[1..] {
        assert a == [a[0]] + a[1..] && b == [b[0]] + b[1..];
      }
    }
  }

  lemma {:induction false} StringLessTransitive(a: string, b: string, c: string)
    requires StringLess(a, b) && StringLess(b, c)
    ensures StringLess(a, c)
  {
    if a != "" && a[0] == b[0] == c[0] {
      StringLessTransitive(a[1..], b[1..], c[1..]);
    }
  }

  // The comparison is the lexicographic one: by the first difference, or else by length.
  lemma {:induction false} StringLessExact(a: string, b: string)
    ensures StringLess(a, b) <==>
            (a < b || exists i :: 0 <= i < |a| && i < |b| && a[..i] == b[..i] && a[i] < b[i])
  {
    if a != "" && b != "" && a[0] == b[0] {
      var x, y := a[1..], b[1..];
      StringLessExact(x, y);
      assert a == [a[0]] + x && b == [a[0]] + y;
      if i :| 0 <= i < |x| && i < |y| && x[..i] == y[..i] && x[i] < y[i] {
        assert a[..i + 1] == [a[0]] + x[..i] && b[..i + 1] == [a[0]] + y[..i] && a[i + 1] < b[i + 1];
      }
      if i :| 0 <= i < |a| && i < |b| && a[..i] == b[..i] && a[i] < b[i] {
        assert x[..i - 1] == a[..i][1..] && y[..i - 1] == b[..i][1..] && x[i - 1] < y[i - 1];
      }
    }
  }

  lemma CutAtFirst(sep: char, a: string, x: string, b: string, y: string)
    requires sep !in a && sep !in b
    requires a + [sep] + x == b + [sep] + y
    ensures a == b && x == y
  {
    var s := a + [sep] + x;
    assert a == s[..|a|] && b == s[..|b|];
    assert s[|a|] == sep && s[|b|] == sep;
    assert forall i :: 0 <= i < |a| ==> s[i] == a[i] && a[i] in a;
    assert forall i :: 0 <= i < |b| ==> s[i] == b[i] && b[i] in b;
    assert |a| == |b|;
    assert x == s[|a| + 1..] && y == s[|b| + 1..];
  }

  // Well-formed keys print differently.
  lemma ToStringInjective(a: ResourceKey, b: ResourceKey)
    requires a.WellFormed() && b.WellFormed()
    requires a.ToString() == b.ToString()
    ensures a == b
  {
    var restA, restB := a.namespace + "/" + a.name, b.namespace + "/" + b.name;
    var tailA, tailB := a.kind + "/" + restA, b.kind + "/" + restB;
    assert a.ToString() == a.group + ['/'] + tailA && b.ToString() == b.group + ['/'] + tailB;
    CutAtFirst('/', a.group, tailA, b.group, tailB);
    assert tailA == a.kind + ['/'] + restA && tailB == b.kind + ['/'] + restB;
    CutAtFirst('/', a.kind, restA, b.kind, restB);
    assert restA == a.namespace + ['/'] + a.name && restB == b.namespace + ['/'] + b.name;
    CutAtFirst('/', a.namespace, a.name, b.namespace, b.name);
  }

  // What follows the first difference does not matter.
  lemma {:induction false} StringLessExtends(a: string, b: string, x: string, y: string)
    requires StringLess(a, b) && !(a <= b)
    ensures StringLess(a + x, b + y)
  {
    if a[0] == b[0] {
      assert a == [a[0]] + a[1..] && b == [b[0]] + b[1..];
      StringLessExtends(a[1..], b[1..], x, y);
      assert (a + x)[1..] == a[1..] + x && (b + y)[1..] == b[1..] + y;
    }
  }

  lemma NoPrefix(a: string, b: string)
    requires '/' !in b && a + "/" <= b + "/"
    ensures a == b
  {
    assert (b + "/")[|a|] == (a + "/")[|a|] == '/';
    assert forall i :: 0 <= i < |b| ==> (b + "/")[i] == b[i] && b[i] in b;
    assert a == (a + "/")[..|a|] == (b + "/")[..|a|];
  }

  // Keys in different groups are in the order of their groups.
  lemma GroupsDecide(a: ResourceKey, b: ResourceKey)
    requires b.WellFormed() && StringLess(a.group + "/", b.group + "/")
    ensures StringLess(a.ToString(), b.ToString())
  {
    hide StringLess;
    var restA, restB := a.kind + "/" + a.namespace + "/" + a.name, b.kind + "/" + b.namespace + "/" + b.name;
    if a.group + "/" <= b.group + "/" {
      NoPrefix(a.group, b.group);
      StringLessTotal(a.group + "/", a.group + "/");
    }
    StringLessExtends(a.group + "/", b.group + "/", restA, restB);
    assert a.ToString() == a.group + "/" + restA && b.ToString() == b.group + "/" + restB;
  }

  // Without the restriction they need not.
  lemma ToStringNotInjective()
    ensures var a, b := ResourceKey("a/b", "c", "d", "e"), ResourceKey("a", "b/c", "d", "e");
            a != b && a.ToString() == b.ToString()
  {
  }
}
