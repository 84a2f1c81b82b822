/** The user colouring of the Gantt chart: the users of the incoming tasks are
    de-duplicated in order of first occurrence, numbered into the CSS classes
    `wx-user-1`, `wx-user-2`, ..., and every task is re-tagged with its user's
    class as its `type`; the classes are also listed as the chart's task
    types. Weekend columns are highlighted from the day of the week. */
module Gantt {
  import opened Js
  import Seqs

  /** A chart task: `rest` stands for the fields the derivation copies
      unchanged (id, dates, text, progress, ...). */
  datatype GanttTask<R> = GanttTask(rest: R, user: Option<string>, kind: Option<string>)

  /** An entry of `taskTypes`; `caption` is its `label`. */
  datatype TaskType = TaskType(id: string, caption: string)

  /** A plain object built by assignment: its keys in insertion order and its
      key/value pairs. */
  datatype Dict = Dict(keys: seq<string>, values: map<string, string>)

  predicate WellFormed(d: Dict) {
    && Seqs.Distinct(d.keys)
    && (forall k :: k in d.values ==> k in d.keys)
    && (forall i :: 0 <= i < |d.keys| ==> d.keys[i] in d.values)
  }

  /** No two keys hold the same value. */
  predicate Injective(m: map<string, string>) {
    forall a, b :: a in m && b in m && a != b ==> m[a] != m[b]
  }

  /** The property name an object assignment `acc[user]` writes to. */
  function PropertyKey(user: Option<string>): string {
    if user.Some? then user.value else "undefined"
  }

  function KeysOf(users: seq<Option<string>>): (ks: seq<string>)
    ensures |ks| == |users|
  {
    seq(|users|, i requires 0 <= i < |users| => PropertyKey(users[i]))
  }

  /** `taskProp.map(ele => ele.user)`. */
  function Users<R>(taskProp: seq<GanttTask<R>>): (users: seq<Option<string>>)
    ensures |users| == |taskProp|
    ensures forall i :: 0 <= i < |taskProp| ==> users[i] == taskProp[i].user
  {
    seq(|taskProp|, i requires 0 <= i < |taskProp| => taskProp[i].user)
  }

  /** `uniqueUsers`: each user once, in order of first occurrence. */
  function UniqueUsers<R>(taskProp: seq<GanttTask<R>>): (r: seq<Option<string>>)
    ensures Seqs.Distinct(r)
    ensures forall i :: 0 <= i < |taskProp| ==> taskProp[i].user in r
    ensures forall i :: 0 <= i < |r| ==> exists j :: 0 <= j < |taskProp| && taskProp[j].user == r[i]
    ensures forall i, j :: 0 <= i < j < |r| ==>
      Seqs.IndexOf(Users(taskProp), r[i]) < Seqs.IndexOf(Users(taskProp), r[j])
  {
    var users := Users(taskProp);
    var r := Seqs.Dedup(users);
    assert forall i :: 0 <= i < |r| ==> r[i] in users;
    r
  }

  /** The class of the user at 0-based position `index`: `wx-user-${index + 1}`. */
  function UserClass(index: nat): string {
    "wx-user-" + IntToString(index + 1)
  }

  /** Different positions get different classes. */
  lemma UserClassInjective(a: nat, b: nat)
    requires UserClass(a) == UserClass(b)
    ensures a == b
  {
    PrefixCancel("wx-user-", IntToString(a + 1), IntToString(b + 1));
    IntToStringInjective(a + 1, b + 1);
  }

  lemma PrefixCancel(p: string, x: string, y: string)
    requires p + x == p + y
    ensures x == y
  {
    assert x == (p + x)[|p|..];
    assert y == (p + y)[|p|..];
  }

  /** `acc[key] = value` on a plain object: a new key is appended to the
      insertion order, an existing one keeps its place and takes the value. */
  function Assign(d: Dict, key: string, value: string): (r: Dict)
    ensures r.values == d.values[key := value]
  {
    Dict(if key in d.values then d.keys else d.keys + [key], d.values[key := value])
  }

  /** The object the `reduce` builds from the property names `ks` of the
      unique users: the user at position `index` is assigned class `index`. */
  function Fill(ks: seq<string>): Dict {
    if ks == [] then Dict([], map[])
    else Assign(Fill(ks[..|ks| - 1]), ks[|ks| - 1], UserClass(|ks| - 1))
  }

  /** The last position of `k` in `ks`. */
  function LastIndex(ks: seq<string>, k: string): (i: nat)
    requires k in ks
    ensures i < |ks| && ks[i] == k
    ensures forall j :: i < j < |ks| ==> ks[j] != k
  {
    if ks[|ks| - 1] == k then |ks| - 1 else LastIndex(ks[..|ks| - 1], k)
  }

  /** The filled object has exactly the names of `ks` as keys. */
  lemma {:induction false} FillDomain(ks: seq<string>)
    ensures forall k :: k in Fill(ks).values <==> k in ks
  {
    if ks != [] {
      var init := ks[..|ks| - 1];
      FillDomain(init);
      assert ks == init + [ks[|ks| - 1]];
    }
  }

  /** The insertion order is the order of first occurrence. */
  lemma {:induction false} FillKeys(ks: seq<string>)
    ensures Fill(ks).keys == Seqs.Dedup(ks)
  {
    if ks != [] {
      var init := ks[..|ks| - 1];
      FillKeys(init);
      FillDomain(init);
    }
  }

  /** Each name holds the class of its last occurrence. */
  lemma {:induction false} FillValues(ks: seq<string>)
    ensures forall k :: k in ks ==> k in Fill(ks).values && Fill(ks).values[k] == UserClass(LastIndex(ks, k))
  {
    FillDomain(ks);
    if ks != [] {
      var init := ks[..|ks| - 1];
      FillValues(init);
      forall k | k in ks ensures Fill(ks).values[k] == UserClass(LastIndex(ks, k)) {
        if k != ks[|ks| - 1] {
          assert k in init;
        }
      }
    }
  }

  /** The filled object has one key per distinct name, in order of first
      occurrence, and each name holds the class of its last occurrence. */
  lemma FillShape(ks: seq<string>)
    ensures WellFormed(Fill(ks))
    ensures Fill(ks).keys == Seqs.Dedup(ks)
    ensures forall k :: k in Fill(ks).values <==> k in ks
    ensures forall k :: k in ks ==> Fill(ks).values[k] == UserClass(LastIndex(ks, k))
  {
    FillWellFormed(ks);
    FillKeys(ks);
    FillDomain(ks);
    FillValues(ks);
  }

  /** The filled object is well formed: its key list has no repeats and
      lists exactly the names that hold a value. */
  lemma FillWellFormed(ks: seq<string>)
    ensures WellFormed(Fill(ks))
  {
    FillDomain(ks);
    FillKeys(ks);
    var d := Fill(ks);
    var u := Seqs.Dedup(ks);
    forall k | k in d.values ensures k in d.keys {
      var i :| 0 <= i < |ks| && ks[i] == k;
      assert ks[i] in u;
    }
    forall i | 0 <= i < |d.keys| ensures d.keys[i] in d.values {
      assert u[i] in ks;
    }
  }

  /** Different names never share a class. */
  lemma FillInjective(ks: seq<string>)
    ensures Injective(Fill(ks).values)
  {
    FillShape(ks);
    var m := Fill(ks).values;
    forall a, b | a in m && b in m && a != b ensures m[a] != m[b] {
      if m[a] == m[b] {
        UserClassInjective(LastIndex(ks, a), LastIndex(ks, b));
      }
    }
  }

  /** Without shared names, the name at position `i` holds class `i`. */
  lemma FillDistinct(ks: seq<string>)
    requires Seqs.Distinct(ks)
    ensures forall i :: 0 <= i < |ks| ==> ks[i] in Fill(ks).values && Fill(ks).values[ks[i]] == UserClass(i)
    ensures Fill(ks).keys == ks
  {
    FillKeys(ks);
    DedupOfDistinct(ks);
    FillValues(ks);
    var d := Fill(ks);
    forall i | 0 <= i < |ks| ensures ks[i] in d.values && d.values[ks[i]] == UserClass(i) {
      var k := ks[i];
      assert k in ks;
      assert LastIndex(ks, k) == i;
    }
  }

  /** The `reduce` that fills `usersDict`: for each unique user at position
      `index`, `acc[user] = wx-user-${index + 1}`. When two users share a
      property name (`undefined` and the string "undefined") the later
      assignment wins, at the key's first insertion position. */
  method UsersDict(unique: seq<Option<string>>) returns (d: Dict)
    ensures d == Fill(KeysOf(unique))
    ensures WellFormed(d) && Injective(d.values)
    ensures d.keys == Seqs.Dedup(KeysOf(unique))
    ensures forall i :: 0 <= i < |unique| ==> KeysOf(unique)[i] in d.values
    ensures Seqs.Distinct(KeysOf(unique)) ==>
      forall i :: 0 <= i < |unique| ==> d.values[KeysOf(unique)[i]] == UserClass(i)
  {
    var ks := KeysOf(unique);
    d := Dict([], map[]);
    for n := 0 to |unique|
      invariant d == Fill(ks[..n])
    {
      var key := PropertyKey(unique[n]);
      assert ks[..n + 1][..n] == ks[..n];
      if key !in d.values {
        d := d.(keys := d.keys + [key]);
      }
      d := d.(values := d.values[key := UserClass(n)]);
    }
    assert ks[..|unique|] == ks;
    FillWellFormed(ks);
    FillKeys(ks);
    FillDomain(ks);
    FillInjective(ks);
    if Seqs.Distinct(ks) {
      FillDistinct(ks);
    }
  }

  /** The class written for `user`, if any: `usersDict[ele.user]`. */
  function Lookup(d: Dict, user: Option<string>): (r: Option<string>)
    ensures WellFormed(d) ==> (r.Some? <==> PropertyKey(user) in d.keys)
    ensures r.Some? ==> r.value in d.values.Values
  {
    var key := PropertyKey(user);
    if key in d.values then Some(d.values[key]) else None
  }

  /** `taskProp.map(ele => ({ ...ele, type: usersDict[ele.user] }))`. */
  function Retag<R>(taskProp: seq<GanttTask<R>>, d: Dict): (tasks: seq<GanttTask<R>>)
    ensures |tasks| == |taskProp|
    ensures forall i :: 0 <= i < |tasks| ==>
      tasks[i].rest == taskProp[i].rest && tasks[i].user == taskProp[i].user
  {
    seq(|taskProp|, i requires 0 <= i < |taskProp| => taskProp[i].(kind := Lookup(d, taskProp[i].user)))
  }

  /** `Object.entries(usersDict).map(([userName, userType]) => ({ id: userType, label: userName }))`. */
  function TaskTypes(d: Dict): (types: seq<TaskType>)
    requires WellFormed(d)
    ensures |types| == |d.keys|
  {
    seq(|d.keys|, i requires 0 <= i < |d.keys| => TaskType(d.values[d.keys[i]], d.keys[i]))
  }

  /** Task types of an object without shared values have distinct ids and
      distinct labels. */
  lemma TaskTypesDistinct(d: Dict)
    requires WellFormed(d) && Injective(d.values)
    ensures var types := TaskTypes(d);
      forall s, t :: 0 <= s < t < |types| ==> types[s].id != types[t].id && types[s].caption != types[t].caption
  {
  }

  /** Every user of the incoming tasks has an entry in the dictionary and a
      task type whose label is the user's name. */
  lemma EveryUserHasType<R>(taskProp: seq<GanttTask<R>>, i: nat)
    requires i < |taskProp|
    ensures var d := Fill(KeysOf(UniqueUsers(taskProp)));
      && WellFormed(d)
      && Lookup(d, taskProp[i].user).Some?
      && exists t :: 0 <= t < |d.keys|
           && TaskTypes(d)[t] == TaskType(Lookup(d, taskProp[i].user).value, PropertyKey(taskProp[i].user))
  {
    var users := Users(taskProp);
    var unique := Seqs.Dedup(users);
    var ks := KeysOf(unique);
    FillShape(ks);
    assert users[i] in unique;
    var u := Seqs.IndexOf(unique, users[i]);
    assert ks[u] == PropertyKey(taskProp[i].user);
    TypeForKey(Fill(ks), ks[u]);
  }

  /** Every key of a well-formed object has a task type labelled with it. */
  lemma TypeForKey(d: Dict, key: string)
    requires WellFormed(d) && key in d.values
    ensures exists t :: 0 <= t < |d.keys| && TaskTypes(d)[t] == TaskType(d.values[key], key)
  {
    var t := Seqs.IndexOf(d.keys, key);
    assert TaskTypes(d)[t] == TaskType(d.values[key], key);
  }

  /** Without the `undefined` collision, the t-th unique user is the t-th
      task type, labelled with its name and numbered `wx-user-${t + 1}`. */
  lemma TypesWithoutCollision(unique: seq<Option<string>>)
    requires Seqs.Distinct(KeysOf(unique))
    ensures var d := Fill(KeysOf(unique));
      && WellFormed(d)
      && |TaskTypes(d)| == |unique|
      && forall t :: 0 <= t < |unique| ==> TaskTypes(d)[t] == TaskType(UserClass(t), PropertyKey(unique[t]))
  {
    var ks := KeysOf(unique);
    FillWellFormed(ks);
    FillDistinct(ks);
    var d := Fill(ks);
    forall t | 0 <= t < |unique| ensures TaskTypes(d)[t] == TaskType(UserClass(t), PropertyKey(unique[t])) {
      assert d.keys[t] == ks[t] == PropertyKey(unique[t]);
    }
  }

  /** Without shared names, a user listed in `unique` finds the class of its
      position. */
  lemma LookupListed(unique: seq<Option<string>>, user: Option<string>)
    requires Seqs.Distinct(KeysOf(unique))
    requires user in unique
    ensures Lookup(Fill(KeysOf(unique)), user) == Some(UserClass(Seqs.IndexOf(unique, user)))
  {
    var ks := KeysOf(unique);
    var u := Seqs.IndexOf(unique, user);
    FillDistinct(ks);
    assert ks[u] == PropertyKey(user);
  }

  /** Without the `undefined` collision, every task is tagged with the class
      of its user's position among the unique users. */
  lemma LookupWithoutCollision<R>(taskProp: seq<GanttTask<R>>, i: nat)
    requires i < |taskProp|
    requires Seqs.Distinct(KeysOf(UniqueUsers(taskProp)))
    ensures var unique := UniqueUsers(taskProp);
      Lookup(Fill(KeysOf(unique)), taskProp[i].user) == Some(UserClass(Seqs.IndexOf(unique, taskProp[i].user)))
  {
    var users := Users(taskProp);
    assert users[i] == taskProp[i].user;
    assert users[i] in Seqs.Dedup(users);
    LookupListed(Seqs.Dedup(users), taskProp[i].user);
  }

  /** The whole derivation: users, unique users, the dictionary, the
      re-tagged tasks and the task types. */
  method Derive<R>(taskProp: seq<GanttTask<R>>) returns (tasks: seq<GanttTask<R>>, taskTypes: seq<TaskType>)
    ensures |tasks| == |taskProp|
    ensures forall i :: 0 <= i < |tasks| ==>
      && tasks[i].rest == taskProp[i].rest && tasks[i].user == taskProp[i].user
      && tasks[i].kind.Some?
      && exists t :: 0 <= t < |taskTypes| && taskTypes[t] == TaskType(tasks[i].kind.value, PropertyKey(tasks[i].user))
    ensures forall s, t :: 0 <= s < t < |taskTypes| ==> taskTypes[s].id != taskTypes[t].id && taskTypes[s].caption != taskTypes[t].caption
    ensures var unique := UniqueUsers(taskProp);
      Seqs.Distinct(KeysOf(unique)) ==>
        && |taskTypes| == |unique|
        && (forall t :: 0 <= t < |unique| ==> taskTypes[t] == TaskType(UserClass(t), PropertyKey(unique[t])))
        && (forall i :: 0 <= i < |tasks| ==> tasks[i].kind == Some(UserClass(Seqs.IndexOf(unique, taskProp[i].user))))
  {
    var users := Users(taskProp);
    var unique := Seqs.Dedup(users);
    var d := UsersDict(unique);
    tasks := Retag(taskProp, d);
    taskTypes := TaskTypes(d);
    TaskTypesDistinct(d);
    forall i | 0 <= i < |tasks|
      ensures tasks[i].kind.Some?
      ensures exists t :: 0 <= t < |taskTypes| && taskTypes[t] == TaskType(tasks[i].kind.value, PropertyKey(tasks[i].user))
    {
      EveryUserHasType(taskProp, i);
    }
    if Seqs.Distinct(KeysOf(unique)) {
      TypesWithoutCollision(unique);
      forall i | 0 <= i < |tasks|
        ensures tasks[i].kind == Some(UserClass(Seqs.IndexOf(unique, taskProp[i].user)))
      {
        LookupWithoutCollision(taskProp, i);
      }
    }
  }

  /** De-duplicating a sequence without repetitions leaves it unchanged. */
  lemma {:induction false} DedupOfDistinct<T>(s: seq<T>)
    requires Seqs.Distinct(s)
    ensures Seqs.Dedup(s) == s
  {
    if s != [] {
      var init := s[..|s| - 1];
      DedupOfDistinct(init);
    }
  }

  /** Distinct users have distinct property names unless both `undefined` and
      the string "undefined" occur. */
  lemma KeysOfDistinct(users: seq<Option<string>>)
    requires Seqs.Distinct(users)
    requires !(None in users && Some("undefined") in users)
    ensures Seqs.Distinct(KeysOf(users))
  {
    var ks := KeysOf(users);
    forall i, j | 0 <= i < j < |users| ensures ks[i] != ks[j] {
      if users[i].Some? && users[j].Some? {
        assert users[i] != users[j];
      }
    }
  }

  /** The colliding pair: `undefined` and "undefined" are different users
      but write the same dictionary entry. */
  lemma UndefinedCollides()
    ensures Seqs.Distinct([None, Some("undefined")])
    ensures !Seqs.Distinct(KeysOf([None, Some("undefined")]))
  {
    var ks := KeysOf([None, Some("undefined")]);
    assert ks[0] == ks[1];
  }

  // ---------------------------------------------------------------------
  // Weekend highlighting; a day is `Date#getDay()`, 0 (Sunday) to 6 (Saturday).

  /** `isDayOff`: of the seven days of the week, exactly Sunday and Saturday. */
  predicate IsDayOff(day: int)
    ensures 0 <= day <= 6 ==> (IsDayOff(day) <==> day !in {1, 2, 3, 4, 5})
  {
    day == 0 || day == 6
  }

  /** `highlightTime(d, u)`: only day cells are ever highlighted, and those as
      `dayStyle` would. */
  function HighlightTime(day: int, unit: string): (r: string)
    ensures r == "" || r == "wx-weekend"
    ensures unit != "day" ==> r == ""
    ensures unit == "day" ==> r == DayStyle(day)
  {
    if unit == "day" && IsDayOff(day) then "wx-weekend" else ""
  }

  /** `dayStyle(a)`, written separately in the chart from `highlightTime`: it
      marks exactly the days `isDayOff` accepts. */
  function DayStyle(day: int): (r: string)
    ensures r == "wx-weekend" <==> IsDayOff(day)
    ensures r != "wx-weekend" ==> r == ""
  {
    if day == 6 || day == 0 then "wx-weekend" else ""
  }

  /** Only day cells of Saturday and Sunday are highlighted, and for day
      cells the two weekend rules agree. */
  lemma HighlightTimeWeekend(day: int, unit: string)
    requires 0 <= day <= 6
    ensures HighlightTime(day, unit) == "wx-weekend" <==> unit == "day" && (day == 0 || day == 6)
    ensures HighlightTime(day, unit) != "wx-weekend" ==> HighlightTime(day, unit) == ""
    ensures HighlightTime(day, "day") == DayStyle(day)
  {
  }
}
