/**
 Projecting a live document onto the fields of a configured one (pkg/utils/json/json.go): at every level a
 field the configuration does not have is dropped.
 */
module JsonFields {
  import K = Kube

  // Strings, numbers and booleans are leaves.
  datatype Json = Null | Leaf(value: string) | Arr(items: seq<Json>) | Obj(fields: map<string, Json>)

  // removeFields
  function Project(config: Json, live: Json): Json
    decreases config
  {
    if config.Obj? && live.Obj? then
      Obj(map k | k in config.fields && k in live.fields :: Project(config.fields[k], live.fields[k]))
    else if config.Arr? && live.Arr? then
      Arr(seq(|live.items|, i requires 0 <= i < |live.items| =>
        if i < |config.items| then Project(config.items[i], live.items[i]) else live.items[i]))
    else live
  }

  // ----- laws -----

  lemma {:induction false} ProjectSelf(c: Json)
    ensures Project(c, c) == c
    decreases c
  {
    match c
    case Obj(fields) =>
      forall k | k in fields ensures Project(fields[k], fields[k]) == fields[k] { ProjectSelf(fields[k]); }
      assert Project(c, c).fields == fields;
    case Arr(items) =>
      forall i | 0 <= i < |items| ensures Project(items[i], items[i]) == items[i] { ProjectSelf(items[i]); }
      assert Project(c, c).items == items;
    case _ =>
  }

  // Projecting twice with one configuration is projecting once.
  lemma {:induction false} ProjectTwice(c: Json, l: Json)
    ensures Project(c, Project(c, l)) == Project(c, l)
    decreases c
  {
    if c.Obj? && l.Obj? {
      forall k | k in c.fields && k in l.fields
        ensures Project(c.fields[k], Project(c.fields[k], l.fields[k])) == Project(c.fields[k], l.fields[k])
      {
        ProjectTwice(c.fields[k], l.fields[k]);
      }
      assert Project(c, Project(c, l)).fields == Project(c, l).fields;
    } else if c.Arr? && l.Arr? {
      forall i | 0 <= i < |l.items| && i < |c.items|
        ensures Project(c.items[i], Project(c.items[i], l.items[i])) == Project(c.items[i], l.items[i])
      {
        ProjectTwice(c.items[i], l.items[i]);
      }
      assert Project(c, Project(c, l)).items == Project(c, l).items;
    }
  }

  // ----- paths -----

  datatype Step = Field(name: string) | Item(index: nat)

  function At(j: Json, path: seq<Step>): K.Option<Json>
    decreases path
  {
    if path == [] then K.Some(j)
    else
      match path[0]
      case Field(name) => if j.Obj? && name in j.fields then At(j.fields[name], path[1..]) else K.None
      case Item(index) => if j.Arr? && index < |j.items| then At(j.items[index], path[1..]) else K.None
  }

  // A path the configuration does not cut: at each step through objects of both documents, it has the field.
  predicate Keeps(config: Json, live: Json, path: seq<Step>)
    decreases path
  {
    path == [] ||
    match path[0]
    case Field(name) =>
      live.Obj? && name in live.fields &&
      (config.Obj? ==> name in config.fields && Keeps(config.fields[name], live.fields[name], path[1..]))
    case Item(index) =>
      live.Arr? && index < |live.items| &&
      (config.Arr? && index < |config.items| ==> Keeps(config.items[index], live.items[index], path[1..]))
  }

  // The part of the configuration that is met at the end of a path, if the two documents have kept the same shape
  function Met(config: Json, live: Json, path: seq<Step>): Json
    decreases path
  {
    if path == [] then config
    else
      match path[0]
      case Field(name) =>
        if config.Obj? && live.Obj? && name in config.fields && name in live.fields
        then Met(config.fields[name], live.fields[name], path[1..]) else Null
      case Item(index) =>
        if config.Arr? && live.Arr? && index < |config.items| && index < |live.items|
        then Met(config.items[index], live.items[index], path[1..]) else Null
  }

  /**
   The projection at any path: there is something exactly where live has something and the configuration cuts
   nothing on the way, and it is what live has there, projected in turn. A leaf is live's leaf.
   */
  lemma {:induction false} ProjectAt(c: Json, l: Json, path: seq<Step>)
    ensures At(Project(c, l), path) ==
            if At(l, path).Some? && Keeps(c, l, path) then K.Some(Project(Met(c, l, path), At(l, path).value))
            else K.None
    decreases path
  {
    if path != [] {
      match path[0]
      case Field(name) =>
        if l.Obj? && name in l.fields {
          if c.Obj? && name in c.fields {
            ProjectAt(c.fields[name], l.fields[name], path[1..]);
          }
        }
      case Item(index) =>
        if l.Arr? && index < |l.items| {
          if c.Arr? && index < |c.items| {
            ProjectAt(c.items[index], l.items[index], path[1..]);
          }
        }
    }
  }

  lemma ProjectLeaf(c: Json, l: Json, path: seq<Step>)
    requires At(Project(c, l), path).Some?
    requires At(Project(c, l), path).value.Leaf? || At(Project(c, l), path).value.Null?
    ensures At(l, path) == At(Project(c, l), path)
  {
  }

  /**
   What live has at a path is in the result as it is, whole, exactly where the configuration cuts nothing on the way,
   if it is a leaf or null; and wherever it does not have the shape of what the configuration has there.
   */
  lemma ProjectWhole(c: Json, l: Json, path: seq<Step>)
    requires At(l, path).Some?
    ensures At(l, path).value.Leaf? || At(l, path).value.Null? ==>
              (At(Project(c, l), path) == At(l, path) <==> Keeps(c, l, path))
    ensures var met, v := Met(c, l, path), At(l, path).value;
            Keeps(c, l, path) && !(met.Obj? && v.Obj?) && !(met.Arr? && v.Arr?) ==> At(Project(c, l), path) == K.Some(v)
  {
    ProjectAt(c, l, path);
  }

  // ----- the loops -----

  method RemoveFields(config: Json, live: Json) returns (r: Json)
    ensures r == Project(config, live)
    decreases config, 1
  {
    match config
    case Obj(_) =>
      if live.Obj? {
        var fields := RemoveMapFields(config, live.fields);
        return Obj(fields);
      }
      return live;
    case Arr(_) =>
      if live.Arr? {
        var items := RemoveListFields(config, live.items);
        return Arr(items);
      }
      return live;
    case _ =>
      return live;
  }

  method RemoveMapFields(config: Json, live: map<string, Json>) returns (result: map<string, Json>)
    requires config.Obj?
    ensures Obj(result) == Project(config, Obj(live))
    decreases config, 0
  {
    result := map[];
    var todo := config.fields.Keys;
    while todo != {}
      invariant todo <= config.fields.Keys
      invariant result == map k | k in config.fields && k !in todo && k in live :: Project(config.fields[k], live[k])
      decreases |todo|
    {
      var k :| k in todo;
      if k in live {
        var v2 := live[k];
        if !v2.Null? {
          v2 := RemoveFields(config.fields[k], v2);
        }
        result := result[k := v2];
      }
      todo := todo - {k};
    }
  }

  method RemoveListFields(config: Json, live: seq<Json>) returns (result: seq<Json>)
    requires config.Arr?
    ensures Arr(result) == Project(config, Arr(live))
    decreases config, 0
  {
    result := [];
    for i := 0 to |live|
      invariant |result| == i
      invariant forall j :: 0 <= j < i ==>
                  result[j] == if j < |config.items| then Project(config.items[j], live[j]) else live[j]
    {
      var v2 := live[i];
      if |config.items| > i {
        if !v2.Null? {
          v2 := RemoveFields(config.items[i], v2);
        }
        result := result + [v2];
      } else {
        result := result + [v2];
      }
    }
  }
}
