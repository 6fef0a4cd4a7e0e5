/** The hand-written parts of the empty-repository layered architecture test:
    the adapter-type extraction, the custom "not depend on other adapter types"
    condition, the gate that decides whether the layered check runs, and the
    dependency that check ignores. */
module LayeredArchitecture {
  import opened Wrappers
  import opened JavaStrings

  /** The package segment that marks an adapter package. */
  const AdaptersMarker := ".adapters."
  const CoreMarker := ".core."
  const InfrastructureMarker := ".infrastructure."
  /** The application root package, the origin of the ignored dependencies. */
  const RootPackage := "com.example"

  /** An analysed class, as far as the test looks at it. */
  datatype JavaClass = JavaClass(name: string, packageName: string)

  /** A direct dependency between two classes. */
  datatype Dependency = Dependency(origin: JavaClass, target: JavaClass)

  /** A violated condition event: the dependency and its message. */
  datatype ConditionEvent = Violated(dependency: Dependency, message: string)

  /** The text after the first `.adapters.` of a package that contains one. */
  function AfterAdapters(packageName: string): string
    requires Contains(packageName, AdaptersMarker)
  {
    packageName[IndexOf(packageName, AdaptersMarker) + |AdaptersMarker|..]
  }

  /** `extractAdapterType`: `None` (Java's null) for a package outside the
      adapters; otherwise the segment after the first `.adapters.`, up to the
      next dot. When that dot is the very first character (an empty segment)
      or there is no further dot, the whole remainder is returned. */
  function ExtractAdapterType(packageName: string): (r: Option<string>)
    ensures r.None? <==> !Contains(packageName, AdaptersMarker)
    ensures r.Some? ==> r.value <= AfterAdapters(packageName)
    ensures r.Some? && |r.value| < |AfterAdapters(packageName)| ==>
      r.value != [] && '.' !in r.value && AfterAdapters(packageName)[|r.value|] == '.'
    ensures r.Some? && '.' in r.value ==> r.value == AfterAdapters(packageName) && r.value[0] == '.'
  {
    if !Contains(packageName, AdaptersMarker) then None
    else
      var afterAdapters := AfterAdapters(packageName);
      var dotIndex := IndexOf(afterAdapters, ".");
      var r := if dotIndex > 0 then afterAdapters[..dotIndex] else afterAdapters;
      assert dotIndex > 0 ==> '.' !in r by {
        if dotIndex > 0 && '.' in r {
          var j :| 0 <= j < |r| && r[j] == '.';
          assert OccursAt(afterAdapters, ".", j);
        }
      }
      assert dotIndex == -1 ==> '.' !in r by {
        if dotIndex == -1 && '.' in r {
          var j :| 0 <= j < |r| && r[j] == '.';
          assert OccursAt(afterAdapters, ".", j);
        }
      }
      assert dotIndex == 0 ==> r[0] == '.' by {
        if dotIndex == 0 {
          assert OccursAt(afterAdapters, ".", 0);
        }
      }
      Some(r)
  }

  /** The message of a cross-adapter violation. */
  function ViolationMessage(source: JavaClass, sourceType: string, target: JavaClass, targetType: string): string
  {
    "Class " + source.name + " in adapter type '" + sourceType + "' depends on class "
      + target.name + " in adapter type '" + targetType + "'"
  }

  /** The message names the source class, its adapter type, the target class and its adapter type. */
  lemma ViolationMessageNamesBothSides(source: JavaClass, sourceType: string, target: JavaClass, targetType: string)
    ensures Contains(ViolationMessage(source, sourceType, target, targetType), source.name)
    ensures Contains(ViolationMessage(source, sourceType, target, targetType), sourceType)
    ensures Contains(ViolationMessage(source, sourceType, target, targetType), target.name)
    ensures Contains(ViolationMessage(source, sourceType, target, targetType), targetType)
  {
    var m1 := "Class " + source.name;
    var m2 := m1 + " in adapter type '";
    var m3 := m2 + sourceType;
    var m4 := m3 + "' depends on class ";
    var m5 := m4 + target.name;
    var m6 := m5 + " in adapter type '";
    var m7 := m6 + targetType;
    var m := m7 + "'";
    assert m == ViolationMessage(source, sourceType, target, targetType);
    ContainsSuffix("Class ", source.name);
    ContainsSuffix(m2, sourceType);
    ContainsSuffix(m4, target.name);
    ContainsSuffix(m6, targetType);
    ContainsExtend(m1, " in adapter type '", source.name);
    ContainsExtend(m2, sourceType, source.name);
    ContainsExtend(m3, "' depends on class ", source.name);
    ContainsExtend(m3, "' depends on class ", sourceType);
    ContainsExtend(m4, target.name, source.name);
    ContainsExtend(m4, target.name, sourceType);
    ContainsExtend(m5, " in adapter type '", source.name);
    ContainsExtend(m5, " in adapter type '", sourceType);
    ContainsExtend(m5, " in adapter type '", target.name);
    ContainsExtend(m6, targetType, source.name);
    ContainsExtend(m6, targetType, sourceType);
    ContainsExtend(m6, targetType, target.name);
    ContainsExtend(m7, "'", source.name);
    ContainsExtend(m7, "'", sourceType);
    ContainsExtend(m7, "'", target.name);
    ContainsExtend(m7, "'", targetType);
  }

  /** What one pass of the loop in `check` adds for one dependency of `javaClass`. */
  function ViolationFor(javaClass: JavaClass, dependency: Dependency): (r: Option<ConditionEvent>)
    ensures r.Some? <==>
      && ExtractAdapterType(javaClass.packageName).Some?
      && Contains(dependency.target.packageName, AdaptersMarker)
      && ExtractAdapterType(javaClass.packageName) != ExtractAdapterType(dependency.target.packageName)
    ensures r.Some? ==> r.value.dependency == dependency
    ensures r.Some? ==> r.value.message == ViolationMessage(
      javaClass, ExtractAdapterType(javaClass.packageName).value,
      dependency.target, ExtractAdapterType(dependency.target.packageName).value)
  {
    var sourceAdapterType := ExtractAdapterType(javaClass.packageName);
    var targetPackage := dependency.target.packageName;
    if !Contains(targetPackage, AdaptersMarker) then None
    else
      var targetAdapterType := ExtractAdapterType(targetPackage);
      if sourceAdapterType.Some? && sourceAdapterType == targetAdapterType then None
      else if sourceAdapterType.Some? && targetAdapterType.Some? && sourceAdapterType != targetAdapterType then
        Some(Violated(dependency, ViolationMessage(javaClass, sourceAdapterType.value,
                                                   dependency.target, targetAdapterType.value)))
      else None
  }

  /** The events one loop pass adds: none, or the one violation. */
  function EventsOf(v: Option<ConditionEvent>): seq<ConditionEvent>
  {
    match v
    case Some(e) => [e]
    case None => []
  }

  /** Everything `check` adds for `javaClass`, in dependency-iteration order. */
  function Violations(javaClass: JavaClass, dependencies: seq<Dependency>): seq<ConditionEvent>
  {
    if dependencies == [] then []
    else EventsOf(ViolationFor(javaClass, dependencies[0])) + Violations(javaClass, dependencies[1..])
  }

  /** ArchUnit's `ConditionEvents`: the collection the condition appends to. */
  class ConditionEvents {
    var events: seq<ConditionEvent>

    constructor ()
      ensures events == []
    {
      events := [];
    }

    method Add(event: ConditionEvent)
      modifies this
      ensures events == old(events) + [event]
    {
      events := events + [event];
    }
  }

  /** The `check` method of `notDependOnOtherAdapterTypes`: one pass over the
      class's direct dependencies, adding one violation per cross-adapter edge. */
  method Check(javaClass: JavaClass, dependencies: seq<Dependency>, events: ConditionEvents)
    modifies events
    ensures events.events == old(events.events) + Violations(javaClass, dependencies)
  {
    var sourceAdapterType := ExtractAdapterType(javaClass.packageName);
    for i := 0 to |dependencies|
      invariant events.events == old(events.events) + Violations(javaClass, dependencies[..i])
    {
      ViolationsSnoc(javaClass, dependencies, i);
      CheckDependency(javaClass, sourceAdapterType, dependencies[i], events);
    }
    assert dependencies[..|dependencies|] == dependencies;
  }

  /** The body of the loop in `check`, for one dependency. */
  method CheckDependency(javaClass: JavaClass, sourceAdapterType: Option<string>, dependency: Dependency,
                         events: ConditionEvents)
    requires sourceAdapterType == ExtractAdapterType(javaClass.packageName)
    modifies events
    ensures events.events == old(events.events) + EventsOf(ViolationFor(javaClass, dependency))
  {
    var targetClass := dependency.target;
    var targetPackage := targetClass.packageName;
    if !Contains(targetPackage, AdaptersMarker) {
      return;
    }
    var targetAdapterType := ExtractAdapterType(targetPackage);
    if sourceAdapterType.Some? && sourceAdapterType == targetAdapterType {
      return;
    }
    if sourceAdapterType.Some? && targetAdapterType.Some? && sourceAdapterType != targetAdapterType {
      events.Add(Violated(dependency, ViolationMessage(javaClass, sourceAdapterType.value,
                                                       targetClass, targetAdapterType.value)));
    }
  }

  /** Extending the dependencies handled so far by one. */
  lemma ViolationsSnoc(javaClass: JavaClass, dependencies: seq<Dependency>, i: nat)
    requires i < |dependencies|
    ensures Violations(javaClass, dependencies[..i + 1])
         == Violations(javaClass, dependencies[..i]) + EventsOf(ViolationFor(javaClass, dependencies[i]))
  {
    assert dependencies[..i + 1] == dependencies[..i] + [dependencies[i]];
    ViolationsAppend(javaClass, dependencies[..i], [dependencies[i]]);
    assert [dependencies[i]][1..] == [];
  }

  /** The violations of a concatenation are those of its parts, in order:
      events follow dependency-iteration order. */
  lemma {:induction false} ViolationsAppend(javaClass: JavaClass, a: seq<Dependency>, b: seq<Dependency>)
    ensures Violations(javaClass, a + b) == Violations(javaClass, a) + Violations(javaClass, b)
  {
    if a == [] {
      assert a + b == b;
    } else {
      assert (a + b)[0] == a[0];
      assert (a + b)[1..] == a[1..] + b;
      ViolationsAppend(javaClass, a[1..], b);
    }
  }

  /** At most one event per dependency. */
  lemma {:induction false} ViolationsAtMostOnePerDependency(javaClass: JavaClass, dependencies: seq<Dependency>)
    ensures |Violations(javaClass, dependencies)| <= |dependencies|
  {
    if dependencies != [] {
      ViolationsAtMostOnePerDependency(javaClass, dependencies[1..]);
    }
  }

  /** A class outside the adapters (no adapter type) never produces an event. */
  lemma {:induction false} NoAdapterTypeNoViolations(javaClass: JavaClass, dependencies: seq<Dependency>)
    requires ExtractAdapterType(javaClass.packageName).None?
    ensures Violations(javaClass, dependencies) == []
  {
    if dependencies != [] {
      NoAdapterTypeNoViolations(javaClass, dependencies[1..]);
    }
  }

  /** Every event reports one of the class's dependencies, one that crosses adapter types. */
  lemma {:induction false} ViolationsSound(javaClass: JavaClass, dependencies: seq<Dependency>)
    ensures forall e :: e in Violations(javaClass, dependencies) ==>
      e.dependency in dependencies && ViolationFor(javaClass, e.dependency) == Some(e)
  {
    if dependencies != [] {
      ViolationsSound(javaClass, dependencies[1..]);
    }
  }

  /** Every dependency that crosses adapter types is reported. */
  lemma {:induction false} ViolationsComplete(javaClass: JavaClass, dependencies: seq<Dependency>)
    ensures forall d :: d in dependencies && ViolationFor(javaClass, d).Some? ==>
      ViolationFor(javaClass, d).value in Violations(javaClass, dependencies)
  {
    if dependencies != [] {
      ViolationsComplete(javaClass, dependencies[1..]);
      forall d | d in dependencies && ViolationFor(javaClass, d).Some?
        ensures ViolationFor(javaClass, d).value in Violations(javaClass, dependencies)
      {
        if d != dependencies[0] {
          assert d in dependencies[1..];
        }
      }
    }
  }

  // ---------------------------------------------------------------- the layered check's gate

  /** `classes.stream().anyMatch(c -> c.getPackageName().contains(marker))`. */
  function AnyPackageContains(classes: seq<JavaClass>, marker: string): (r: bool)
    ensures r <==> exists i :: 0 <= i < |classes| && Contains(classes[i].packageName, marker)
  {
    if classes == [] then false
    else if Contains(classes[0].packageName, marker) then true
    else
      var r := AnyPackageContains(classes[1..], marker);
      assert r ==> exists i :: 0 <= i < |classes| && Contains(classes[i].packageName, marker) by {
        if r {
          var i :| 0 <= i < |classes[1..]| && Contains(classes[1..][i].packageName, marker);
          assert classes[i + 1] == classes[1..][i];
        }
      }
      assert (exists i :: 0 <= i < |classes| && Contains(classes[i].packageName, marker)) ==> r by {
        if exists i :: 0 <= i < |classes| && Contains(classes[i].packageName, marker) {
          var i :| 0 <= i < |classes| && Contains(classes[i].packageName, marker);
          assert i != 0;
          assert classes[1..][i - 1] == classes[i];
        }
      }
      r
  }

  /** How many of the three layers (core, adapters, infrastructure) have a class:
      none exactly when no class package holds any of the three markers. */
  function PresentLayerCount(classes: seq<JavaClass>): (n: nat)
    ensures n == 0 <==> forall i :: 0 <= i < |classes| ==>
      && !Contains(classes[i].packageName, CoreMarker)
      && !Contains(classes[i].packageName, AdaptersMarker)
      && !Contains(classes[i].packageName, InfrastructureMarker)
  {
    (if AnyPackageContains(classes, CoreMarker) then 1 else 0)
    + (if AnyPackageContains(classes, AdaptersMarker) then 1 else 0)
    + (if AnyPackageContains(classes, InfrastructureMarker) then 1 else 0)
  }

  /** The gate of `hexagonal_architecture_is_respected`: the layered check runs
      exactly when at least two of the three layers are present. */
  function LayeredCheckApplies(classes: seq<JavaClass>): (r: bool)
    ensures r <==> PresentLayerCount(classes) >= 2
  {
    var hasCoreClasses := AnyPackageContains(classes, CoreMarker);
    var hasAdapterClasses := AnyPackageContains(classes, AdaptersMarker);
    var hasInfrastructureClasses := AnyPackageContains(classes, InfrastructureMarker);
    (hasCoreClasses && hasAdapterClasses)
    || (hasCoreClasses && hasInfrastructureClasses)
    || (hasAdapterClasses && hasInfrastructureClasses)
  }

  /** Importing more classes never removes a layer. */
  lemma AnyPackageContainsMonotone(classes: seq<JavaClass>, more: seq<JavaClass>, marker: string)
    ensures AnyPackageContains(classes, marker) ==> AnyPackageContains(classes + more, marker)
  {
    if AnyPackageContains(classes, marker) {
      var i :| 0 <= i < |classes| && Contains(classes[i].packageName, marker);
      assert (classes + more)[i] == classes[i];
    }
  }

  /** Importing more classes never lowers the number of present layers. */
  lemma PresentLayerCountMonotone(classes: seq<JavaClass>, more: seq<JavaClass>)
    ensures PresentLayerCount(classes) <= PresentLayerCount(classes + more)
  {
    AnyPackageContainsMonotone(classes, more, CoreMarker);
    AnyPackageContainsMonotone(classes, more, AdaptersMarker);
    AnyPackageContainsMonotone(classes, more, InfrastructureMarker);
  }

  /** Once the layered check applies, it still applies after importing more classes. */
  lemma LayeredCheckAppliesMonotone(classes: seq<JavaClass>, more: seq<JavaClass>)
    ensures LayeredCheckApplies(classes) ==> LayeredCheckApplies(classes + more)
  {
    PresentLayerCountMonotone(classes, more);
  }

  /** The `ignoreDependency` pair: from a class in exactly `com.example` to a class in a `.core.` package. */
  predicate IgnoredDependency(origin: JavaClass, target: JavaClass)
  {
    origin.packageName == RootPackage && Contains(target.packageName, CoreMarker)
  }

  /** A segment marker, starting and ending with a dot, cannot occur in `com.example`,
      which holds a single dot. */
  lemma RootPackageHasNoMarker(marker: string)
    requires |marker| >= 2 && marker[0] == '.' && marker[|marker| - 1] == '.'
    ensures !Contains(RootPackage, marker)
  {
    forall i: nat | i <= |RootPackage| ensures !OccursAt(RootPackage, marker, i) {
    }
  }

  /** The origin of an ignored dependency lies in none of the three layers and has
      no adapter type, so the cross-adapter condition reports nothing for it. */
  lemma IgnoredOriginIsOutsideEveryLayer(origin: JavaClass, target: JavaClass, dependencies: seq<Dependency>)
    requires IgnoredDependency(origin, target)
    ensures !Contains(origin.packageName, CoreMarker)
    ensures !Contains(origin.packageName, InfrastructureMarker)
    ensures ExtractAdapterType(origin.packageName).None?
    ensures Violations(origin, dependencies) == []
  {
    RootPackageHasNoMarker(CoreMarker);
    RootPackageHasNoMarker(AdaptersMarker);
    RootPackageHasNoMarker(InfrastructureMarker);
    NoAdapterTypeNoViolations(origin, dependencies);
  }
}
