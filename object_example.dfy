/**
 * `ObjectExample`: a nested user record kept in a state cell, quick setters that
 * rebuild it with spreads, and a bulk edit mode working on a shallow copy.
 *
 * JavaScript objects are heap objects here, so that sharing is visible: a spread
 * `{...o}` makes a new object whose properties hold the same values, so nested
 * objects are shared, not copied. `Heap` is every object the component can reach.
 */
module ObjectExample {
  import opened Wrappers
  import JsText

  /** A JavaScript value: the primitives the record uses, or a reference to an object. */
  datatype JsValue = Undefined | Str(s: string) | Num(n: int) | Bool(b: bool) | Ref(obj: JsObject)

  /** A plain JavaScript object: its own enumerable properties. */
  class JsObject {
    var props: map<string, JsValue>

    constructor(props: map<string, JsValue>)
      ensures this.props == props
    {
      this.props := props;
    }
  }

  const TypeError := "TypeError"

  /** The objects a value refers to directly. */
  function Refs(v: JsValue): set<JsObject> {
    if v.Ref? then {v.obj} else {}
  }

  /** `o[key]` on an object: a missing key reads as `undefined`. */
  function Prop(o: JsObject, key: string): (v: JsValue)
    reads o
    ensures key in o.props ==> v == o.props[key]
    ensures key !in o.props ==> v == Undefined
  {
    if key in o.props then o.props[key] else Undefined
  }

  /** `v[key]`: reading a property of `undefined` throws; a primitive has none of the record's keys. */
  function Member(v: JsValue, key: string): (r: Result<JsValue>)
    reads Refs(v)
    ensures r.Err? <==> v == Undefined
    ensures v.Ref? ==> r == Ok(Prop(v.obj, key))
  {
    match v
    case Undefined => Err(TypeError)
    case Ref(o) => Ok(Prop(o, key))
    case _ => Ok(Undefined)
  }

  /** `{...v}`'s properties: an object's own properties, nothing for `undefined` or a number. */
  function Spread(v: JsValue): map<string, JsValue>
    reads Refs(v)
  {
    if v.Ref? then v.obj.props else map[]
  }

  /** Every object a property in `heap` refers to is itself in `heap`. */
  ghost predicate Closed(heap: set<JsObject>)
    reads heap
  {
    forall o, k :: o in heap && k in o.props && o.props[k].Ref? ==> o.props[k].obj in heap
  }

  /** Follows `keys` from `v`, one property read at a time, as `current = current[key]` does. */
  ghost function Walk(v: JsValue, keys: seq<string>, heap: set<JsObject>): (r: Result<JsValue>)
    requires Closed(heap) && Refs(v) <= heap
    reads heap
    ensures r.Ok? ==> Refs(r.value) <= heap
    decreases |keys|
  {
    if keys == [] then Ok(v)
    else match Member(v, keys[0])
      case Err(e) => Err(e)
      case Ok(w) => Walk(w, keys[1..], heap)
  }

  /** One more step of a walk is one more property read at its end. */
  lemma {:induction false} WalkSnoc(v: JsValue, keys: seq<string>, key: string, heap: set<JsObject>)
    requires Closed(heap) && Refs(v) <= heap
    ensures Walk(v, keys + [key], heap) ==
      match Walk(v, keys, heap)
      case Err(e) => Err(e)
      case Ok(w) => Member(w, key)
    decreases |keys|
  {
    if keys == [] {
      assert [] + [key] == [key];
    } else {
      assert (keys + [key])[1..] == keys[1..] + [key];
      match Member(v, keys[0])
      case Err(_) =>
      case Ok(w) => WalkSnoc(w, keys[1..], key, heap);
    }
  }

  /**
   * The object `handleEditChange(path, …)` writes into when it starts from a copy of
   * `data`: the copy itself for a one-key path, otherwise what the walk from the copy's
   * first property reaches (the copy shares its property values with `data`).
   */
  ghost function EditTarget(data: JsObject, keys: seq<string>, heap: set<JsObject>): Result<JsValue>
    requires Closed(heap) && data in heap && |keys| >= 2
    reads heap
  {
    Walk(Prop(data, keys[0]), keys[1..|keys| - 1], heap)
  }

  /** For a two-key path the target is the copy's first property itself. */
  lemma EditTargetOfTwoKeys(data: JsObject, keys: seq<string>, heap: set<JsObject>)
    requires Closed(heap) && data in heap && |keys| == 2
    ensures EditTarget(data, keys, heap) == Ok(Prop(data, keys[0]))
  {
    assert keys[1..|keys| - 1] == [];
  }

  /**
   * `target[key] = value` in strict mode: writing a property of `undefined` or of a
   * primitive throws a TypeError and changes nothing.
   */
  method SetProperty(target: JsValue, key: string, value: JsValue, ghost heap: set<JsObject>) returns (ok: bool)
    requires Closed(heap) && Refs(target) <= heap && Refs(value) <= heap
    modifies Refs(target)
    ensures Closed(heap)
    ensures ok <==> target.Ref?
    ensures ok ==> target.obj.props == old(target.obj.props)[key := value]
  {
    if !target.Ref? {
      return false;
    }
    target.obj.props := target.obj.props[key := value];
    ok := true;
  }

  /**
   * The object work of `handleEditChange` for the keys of a path: a shallow copy of
   * `data`, the walk from it along every key but the last, and the write of `value` under
   * the last key. The copy is the only new object; the write lands in the copy for a
   * one-key path and otherwise in an object of `heap`.
   */
  method EditPath(data: JsObject, keys: seq<string>, value: JsValue, ghost heap: set<JsObject>) returns (newData: JsObject, ok: bool)
    requires Closed(heap) && data in heap && |keys| >= 1 && !value.Ref?
    modifies heap
    ensures fresh(newData) && Closed(heap + {newData})
    ensures |keys| == 1 ==> ok && newData.props == old(data.props)[keys[0] := value]
    ensures |keys| >= 2 ==> (ok <==> old(EditTarget(data, keys, heap)).Ok? && old(EditTarget(data, keys, heap)).value.Ref?)
    ensures |keys| >= 2 && ok ==>
      var target := old(EditTarget(data, keys, heap)).value.obj;
      && newData.props == old(data.props)
      && target.props == old(target.props)[keys[|keys| - 1] := value]
      && forall o :: o in heap && o != target ==> o.props == old(o.props)
    ensures |keys| == 1 || !ok ==> forall o :: o in heap ==> o.props == old(o.props)
  {
    newData := new JsObject(data.props);
    ClosedWithCopy(heap, data, newData);
    var current := Ref(newData);
    if |keys| >= 2 {
      // the first read, `newData[keys[0]]`, finds what `data` holds
      PropInHeap(data, keys[0], heap);
      var r := FollowPath(Prop(newData, keys[0]), keys[1..|keys| - 1], heap);
      if r.Err? {
        return newData, false;
      }
      current := r.value;
    }
    ok := SetProperty(current, keys[|keys| - 1], value, heap + {newData});
  }

  /** A failed read stops the walk: once a prefix of the keys fails, the whole walk fails the same way. */
  lemma {:induction false} WalkStopsAtFailure(v: JsValue, keys: seq<string>, n: nat, heap: set<JsObject>)
    requires Closed(heap) && Refs(v) <= heap && n <= |keys|
    requires Walk(v, keys[..n], heap).Err?
    ensures Walk(v, keys, heap) == Walk(v, keys[..n], heap)
    decreases n
  {
    assert n > 0;
    assert keys[..n][0] == keys[0];
    match Member(v, keys[0])
    case Err(_) =>
    case Ok(w) =>
      assert keys[..n][1..] == keys[1..][..n - 1];
      WalkStopsAtFailure(w, keys[1..], n - 1, heap);
  }

  /** A shallow copy of an object in a closed heap can join the heap. */
  lemma ClosedWithCopy(heap: set<JsObject>, original: JsObject, copy: JsObject)
    requires Closed(heap) && original in heap && copy.props == original.props
    ensures Closed(heap + {copy})
  {
  }

  /** A property of an object in a closed heap refers only into the heap. */
  lemma PropInHeap(o: JsObject, key: string, heap: set<JsObject>)
    requires Closed(heap) && o in heap
    ensures Refs(Prop(o, key)) <= heap
  {
  }

  /** The loop of `handleEditChange`: `current = current[key]` for each key in turn. */
  method FollowPath(start: JsValue, keys: seq<string>, ghost heap: set<JsObject>) returns (r: Result<JsValue>)
    requires Closed(heap) && Refs(start) <= heap
    ensures r == Walk(start, keys, heap)
  {
    var current := start;
    var i := 0;
    while i < |keys|
      invariant 0 <= i <= |keys|
      invariant Refs(current) <= heap
      invariant Walk(start, keys[..i], heap) == Ok(current)
    {
      var step := Member(current, keys[i]);
      WalkSnoc(start, keys[..i], keys[i], heap);
      assert keys[..i] + [keys[i]] == keys[..i + 1];
      if step.Err? {
        WalkStopsAtFailure(start, keys, i + 1, heap);
        return step;
      }
      current := step.value;
      i := i + 1;
    }
    assert keys[..|keys|] == keys;
    return Ok(current);
  }

  /** `user.profile.bio`, or `undefined` when there is no profile object. */
  function ProfileBio(user: JsObject): (v: JsValue)
    reads user, Refs(Prop(user, "profile"))
    ensures Prop(user, "profile").Ref? ==> v == Prop(Prop(user, "profile").obj, "bio")
  {
    var profile := Prop(user, "profile");
    if profile.Ref? then Prop(profile.obj, "bio") else Undefined
  }

  lemma NoDot(s: string)
    requires forall k :: 0 <= k < |s| ==> s[k] != '.'
    ensures '.' !in s
  {
  }

  /** The path the edit form uses for the bio splits into its two keys. */
  method BioPath() returns (path: string)
    ensures JsText.Split(path, '.') == ["profile", "bio"]
  {
    path := "profile.bio";
    var parts := ["profile", "bio"];
    assert JsText.Join(parts, '.') == "profile.bio";
    NoDot("profile");
    NoDot("bio");
    assert forall k :: 0 <= k < |parts| ==> '.' !in parts[k];
    JsText.SplitJoin(parts, '.');
  }

  /** The initial `preferences` object's properties. */
  function InitialPreferences(): (m: map<string, JsValue>)
    ensures forall k :: k in m ==> !m[k].Ref?
  {
    map["theme" := Str("dark"), "language" := Str("en"), "notifications" := Bool(true)]
  }

  /** The initial `profile` object's properties, around its `preferences` object. */
  function InitialProfile(preferences: JsObject): (m: map<string, JsValue>)
    ensures "bio" in m && m["bio"] == Str(InitialBio)
    ensures forall k :: k in m && m[k].Ref? ==> m[k].obj == preferences
  {
    map[
      "bio" := Str(InitialBio),
      "location" := Str("Mumbai, India"),
      "website" := Str("https://dipak.dev"),
      "preferences" := Ref(preferences)]
  }

  /** The initial `settings` object's properties. */
  function InitialSettings(): (m: map<string, JsValue>)
    ensures "privacy" in m && m["privacy"] == Str("public")
    ensures forall k :: k in m ==> !m[k].Ref?
  {
    map["privacy" := Str("public"), "timezone" := Str("Asia/Kolkata"), "currency" := Str("INR")]
  }

  /** The initial record's properties, around its `profile` and `settings` objects. */
  function InitialUser(profile: JsObject, settings: JsObject): (m: map<string, JsValue>)
    ensures m.Keys == {"name", "age", "email", "profile", "settings"}
    ensures m["name"] == Str(InitialName) && m["age"] == Num(25)
    ensures m["profile"] == Ref(profile) && m["settings"] == Ref(settings)
    ensures forall k :: k in m && m[k].Ref? ==> m[k].obj in {profile, settings}
  {
    map[
      "name" := Str(InitialName),
      "age" := Num(25),
      "email" := Str("dipak@example.com"),
      "profile" := Ref(profile),
      "settings" := Ref(settings)]
  }

  /** The five objects of the initial state form a closed heap. */
  lemma InitialHeapClosed(preferences: JsObject, profile: JsObject, settings: JsObject, user: JsObject, copy: JsObject)
    requires preferences.props == InitialPreferences()
    requires profile.props == InitialProfile(preferences)
    requires settings.props == InitialSettings()
    requires user.props == InitialUser(profile, settings) && copy.props == user.props
    ensures Closed({preferences, profile, settings, user, copy})
  {
  }

  const InitialName := "Dipak Prajapati"
  const InitialBio := "Full-stack developer passionate about React and modern web technologies"

  /** The component instance: the user record, the edit flag and the edit copy. */
  class ObjectPage {
    var user: JsObject
    var editMode: bool
    var editData: JsObject
    /** Every object the two state cells can reach. */
    ghost var Heap: set<JsObject>

    ghost predicate Valid()
      reads this, Heap
    {
      user in Heap && editData in Heap && Closed(Heap)
    }

    /** The initial record, and `editData` as a shallow copy of it. */
    constructor()
      ensures Valid() && fresh(Heap) && !editMode
      ensures editData != user && editData.props == user.props
      ensures user.props.Keys == {"name", "age", "email", "profile", "settings"}
      ensures Prop(user, "name") == Str(InitialName) && Prop(user, "age") == Num(25)
      ensures Prop(user, "profile").Ref? && Prop(Prop(user, "profile").obj, "bio") == Str(InitialBio)
      ensures Prop(user, "settings").Ref? && Prop(Prop(user, "settings").obj, "privacy") == Str("public")
    {
      var preferences := new JsObject(InitialPreferences());
      var profile := new JsObject(InitialProfile(preferences));
      var settings := new JsObject(InitialSettings());
      var u := new JsObject(InitialUser(profile, settings));
      var copy := new JsObject(u.props);
      InitialHeapClosed(preferences, profile, settings, u, copy);
      user := u;
      editMode := false;
      editData := copy;
      Heap := {preferences, profile, settings, u, copy};
    }

    /** `setUser(prev => ({...prev, [key]: v}))`: a new top-level object; no existing object changes. */
    method SetUserKey(key: string, v: JsValue)
      requires Valid() && Refs(v) <= Heap
      modifies this
      ensures Valid() && fresh(user) && Heap == old(Heap) + {user}
      ensures user.props == old(user.props)[key := v]
      ensures editData == old(editData) && editMode == old(editMode)
      ensures forall o :: o in old(Heap) ==> o.props == old(o.props)
    {
      var u := new JsObject(user.props[key := v]);
      user := u;
      Heap := Heap + {u};
    }

    /**
     * `setUser(prev => ({...prev, [child]: {...prev[child], [key]: v}}))`: new objects
     * for the record and for its child; no existing object changes.
     */
    method SetUserChildKey(child: string, key: string, v: JsValue)
      requires Valid() && Refs(v) <= Heap
      modifies this
      ensures Valid() && fresh(user) && old(Heap) <= Heap
      ensures child in user.props && user.props == old(user.props)[child := user.props[child]]
      ensures user.props[child].Ref? && fresh(user.props[child].obj)
      ensures user.props[child].obj.props == old(Spread(Prop(user, child)))[key := v]
      ensures editData == old(editData) && editMode == old(editMode)
      ensures forall o :: o in old(Heap) ==> o.props == old(o.props)
    {
      var c := new JsObject(Spread(Prop(user, child))[key := v]);
      Heap := Heap + {c};
      SetUserKey(child, Ref(c));
    }

    method UpdateName(newName: string)
      requires Valid()
      modifies this
      ensures Valid() && fresh(user) && user.props == old(user.props)["name" := Str(newName)]
      ensures editData == old(editData) && editMode == old(editMode)
      ensures forall o :: o in old(Heap) ==> o.props == old(o.props)
    {
      SetUserKey("name", Str(newName));
    }

    /** `parseInt(newAge) || 0`: the text's leading integer, or 0 when it has none. */
    method UpdateAge(newAge: string)
      requires Valid()
      modifies this
      ensures Valid() && fresh(user) && user.props == old(user.props)["age" := Num(JsText.ParseIntOrZero(newAge))]
      ensures editData == old(editData) && editMode == old(editMode)
      ensures forall o :: o in old(Heap) ==> o.props == old(o.props)
    {
      SetUserKey("age", Num(JsText.ParseIntOrZero(newAge)));
    }

    method UpdateEmail(newEmail: string)
      requires Valid()
      modifies this
      ensures Valid() && fresh(user) && user.props == old(user.props)["email" := Str(newEmail)]
      ensures editData == old(editData) && editMode == old(editMode)
      ensures forall o :: o in old(Heap) ==> o.props == old(o.props)
    {
      SetUserKey("email", Str(newEmail));
    }

    method UpdateBio(newBio: string)
      requires Valid()
      modifies this
      ensures Valid() && fresh(user) && "profile" in user.props && user.props == old(user.props)["profile" := user.props["profile"]]
      ensures user.props["profile"].Ref? && fresh(user.props["profile"].obj)
      ensures user.props["profile"].obj.props == old(Spread(Prop(user, "profile")))["bio" := Str(newBio)]
      ensures editData == old(editData) && editMode == old(editMode)
      ensures forall o :: o in old(Heap) ==> o.props == old(o.props)
    {
      SetUserChildKey("profile", "bio", Str(newBio));
    }

    method UpdateLocation(newLocation: string)
      requires Valid()
      modifies this
      ensures Valid() && fresh(user) && "profile" in user.props && user.props == old(user.props)["profile" := user.props["profile"]]
      ensures user.props["profile"].Ref? && fresh(user.props["profile"].obj)
      ensures user.props["profile"].obj.props == old(Spread(Prop(user, "profile")))["location" := Str(newLocation)]
      ensures editData == old(editData) && editMode == old(editMode)
      ensures forall o :: o in old(Heap) ==> o.props == old(o.props)
    {
      SetUserChildKey("profile", "location", Str(newLocation));
    }

    method UpdateWebsite(newWebsite: string)
      requires Valid()
      modifies this
      ensures Valid() && fresh(user) && "profile" in user.props && user.props == old(user.props)["profile" := user.props["profile"]]
      ensures user.props["profile"].Ref? && fresh(user.props["profile"].obj)
      ensures user.props["profile"].obj.props == old(Spread(Prop(user, "profile")))["website" := Str(newWebsite)]
      ensures editData == old(editData) && editMode == old(editMode)
      ensures forall o :: o in old(Heap) ==> o.props == old(o.props)
    {
      SetUserChildKey("profile", "website", Str(newWebsite));
    }

    method UpdatePrivacy(newPrivacy: string)
      requires Valid()
      modifies this
      ensures Valid() && fresh(user) && "settings" in user.props && user.props == old(user.props)["settings" := user.props["settings"]]
      ensures user.props["settings"].Ref? && fresh(user.props["settings"].obj)
      ensures user.props["settings"].obj.props == old(Spread(Prop(user, "settings")))["privacy" := Str(newPrivacy)]
      ensures editData == old(editData) && editMode == old(editMode)
      ensures forall o :: o in old(Heap) ==> o.props == old(o.props)
    {
      SetUserChildKey("settings", "privacy", Str(newPrivacy));
    }

    /**
     * `{...prev, profile: {...prev.profile, preferences: {...prev.profile.preferences, [key]: v}}}`:
     * reading `prev.profile.preferences` throws when the record has no `profile`, and
     * then nothing changes.
     */
    method SetPreferenceKey(key: string, v: JsValue) returns (ok: bool)
      requires Valid() && Refs(v) <= Heap
      modifies this
      ensures Valid() && old(Heap) <= Heap
      ensures ok <==> old(Prop(user, "profile")) != Undefined
      ensures !ok ==> user == old(user) && Heap == old(Heap)
      ensures ok ==> fresh(user) && "profile" in user.props && user.props == old(user.props)["profile" := user.props["profile"]]
      ensures ok ==> user.props["profile"].Ref? && fresh(user.props["profile"].obj)
      ensures ok ==> var profile := user.props["profile"].obj;
        && profile.props == old(Spread(Prop(user, "profile")))["preferences" := Prop(profile, "preferences")]
        && Prop(profile, "preferences").Ref? && fresh(Prop(profile, "preferences").obj)
        && Prop(profile, "preferences").obj.props == old(Spread(Member(Prop(user, "profile"), "preferences").value))[key := v]
      ensures editData == old(editData) && editMode == old(editMode)
      ensures forall o :: o in old(Heap) ==> o.props == old(o.props)
    {
      var r := Member(Prop(user, "profile"), "preferences");
      if r.Err? {
        return false;
      }
      var prefs := new JsObject(Spread(r.value)[key := v]);
      Heap := Heap + {prefs};
      SetUserChildKey("profile", "preferences", Ref(prefs));
      ok := true;
    }

    method UpdateTheme(newTheme: string) returns (ok: bool)
      requires Valid()
      modifies this
      ensures Valid() && old(Heap) <= Heap
      ensures ok <==> old(Prop(user, "profile")) != Undefined
      ensures !ok ==> user == old(user)
      ensures ok ==> fresh(user) && "profile" in user.props && user.props == old(user.props)["profile" := user.props["profile"]]
      ensures ok ==> user.props["profile"].Ref? && fresh(user.props["profile"].obj)
      ensures ok ==> var profile := user.props["profile"].obj;
        && profile.props == old(Spread(Prop(user, "profile")))["preferences" := Prop(profile, "preferences")]
        && Prop(profile, "preferences").Ref?
        && Prop(profile, "preferences").obj.props == old(Spread(Member(Prop(user, "profile"), "preferences").value))["theme" := Str(newTheme)]
      ensures editData == old(editData) && editMode == old(editMode)
      ensures forall o :: o in old(Heap) ==> o.props == old(o.props)
    {
      ok := SetPreferenceKey("theme", Str(newTheme));
    }

    method UpdateLanguage(newLanguage: string) returns (ok: bool)
      requires Valid()
      modifies this
      ensures Valid() && old(Heap) <= Heap
      ensures ok <==> old(Prop(user, "profile")) != Undefined
      ensures !ok ==> user == old(user)
      ensures ok ==> fresh(user) && "profile" in user.props && user.props == old(user.props)["profile" := user.props["profile"]]
      ensures ok ==> user.props["profile"].Ref? && fresh(user.props["profile"].obj)
      ensures ok ==> var profile := user.props["profile"].obj;
        && profile.props == old(Spread(Prop(user, "profile")))["preferences" := Prop(profile, "preferences")]
        && Prop(profile, "preferences").Ref?
        && Prop(profile, "preferences").obj.props == old(Spread(Member(Prop(user, "profile"), "preferences").value))["language" := Str(newLanguage)]
      ensures editData == old(editData) && editMode == old(editMode)
      ensures forall o :: o in old(Heap) ==> o.props == old(o.props)
    {
      ok := SetPreferenceKey("language", Str(newLanguage));
    }

    /**
     * `toggleEditMode`: leaving edit mode makes the edit copy the record itself (the two
     * cells then hold the same object); entering it makes a fresh shallow copy.
     */
    method ToggleEditMode()
      requires Valid()
      modifies this
      ensures Valid() && old(Heap) <= Heap && fresh(Heap - old(Heap)) && editMode == !old(editMode)
      ensures old(editMode) ==> user == old(editData) && editData == old(editData)
      ensures !old(editMode) ==> user == old(user) && fresh(editData) && editData.props == user.props
      ensures forall o :: o in old(Heap) ==> o.props == old(o.props)
    {
      if editMode {
        user := editData;
      } else {
        var copy := new JsObject(user.props);
        editData := copy;
        Heap := Heap + {copy};
      }
      editMode := !editMode;
    }

    /** `cancelEdit`: a fresh shallow copy of the record, and edit mode off. */
    method CancelEdit()
      requires Valid()
      modifies this
      ensures Valid() && old(Heap) <= Heap && !editMode
      ensures user == old(user) && fresh(editData) && editData.props == user.props
      ensures forall o :: o in old(Heap) ==> o.props == old(o.props)
    {
      var copy := new JsObject(user.props);
      editData := copy;
      Heap := Heap + {copy};
      editMode := false;
    }

    /**
     * `handleEditChange`: copies the edit record shallowly, follows every key of the dotted
     * path but the last from the copy, and writes the value under the last key. The walk
     * throws on reading through `undefined`; the final write throws on `undefined` or a
     * primitive. Only the copy is new: a write below the top level lands in an object the
     * copy shares with the previous edit record, and possibly with `user`.
     */
    method HandleEditChange(path: string, value: JsValue) returns (ok: bool)
      requires Valid() && !value.Ref?
      modifies this, Heap
      ensures Valid() && old(Heap) <= Heap && fresh(Heap - old(Heap))
      ensures user == old(user) && editMode == old(editMode)
      ensures var keys := JsText.Split(path, '.');
        |keys| == 1 ==>
          && ok && fresh(editData) && editData.props == old(editData.props)[path := value]
          && forall o :: o in old(Heap) ==> o.props == old(o.props)
      ensures var keys := JsText.Split(path, '.');
        |keys| >= 2 ==> (ok <==> old(EditTarget(editData, keys, Heap)).Ok? && old(EditTarget(editData, keys, Heap)).value.Ref?)
      ensures var keys := JsText.Split(path, '.');
        |keys| >= 2 && ok ==>
          var target := old(EditTarget(editData, keys, Heap)).value.obj;
          && fresh(editData) && editData.props == old(editData.props)
          && target.props == old(target.props)[keys[|keys| - 1] := value]
          && forall o :: o in old(Heap) && o != target ==> o.props == old(o.props)
      ensures !ok ==> editData == old(editData) && forall o :: o in old(Heap) ==> o.props == old(o.props)
    {
      var keys := JsText.Split(path, '.');
      if |keys| == 1 {
        JsText.JoinSplit(path, '.');
      }
      var newData;
      newData, ok := EditPath(editData, keys, value, Heap);
      if ok {
        editData := newData;
        Heap := Heap + {newData};
      }
    }
  }

  /**
   * Entering edit mode, changing `profile.bio` and cancelling: the new text shows in
   * `user` right after the edit and is still there after the cancel, because the shallow
   * copy shares `profile` with the record.
   */
  method BioEditLeaksIntoUser(newBio: string) returns (before: JsValue, afterEdit: JsValue, afterCancel: JsValue)
    ensures before == Str(InitialBio)
    ensures afterEdit == Str(newBio) && afterCancel == Str(newBio)
  {
    var page := new ObjectPage();
    var profile := Prop(page.user, "profile").obj;
    before := ProfileBio(page.user);
    page.ToggleEditMode();
    assert Prop(page.editData, "profile") == Ref(profile);
    var path := BioPath();
    EditTargetOfTwoKeys(page.editData, ["profile", "bio"], page.Heap);
    var ok := page.HandleEditChange(path, Str(newBio));
    assert ok && profile.props["bio"] == Str(newBio);
    assert Prop(page.user, "profile") == Ref(profile);
    afterEdit := ProfileBio(page.user);
    page.CancelEdit();
    afterCancel := ProfileBio(page.user);
  }
}
