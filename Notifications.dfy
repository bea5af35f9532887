/** Notifications and the Result aggregate that collects them
    (NotificationPatternSample/Abstraction.cs). */
module Notifications {
  import Wrappers

  /** Severity of a notification; `None` marks the no-op sentinel. */
  datatype NotificationLevel = None | Error | Warning

  /** An immutable record of one condition; equality is field-wise. */
  datatype Notification = Notification(level: NotificationLevel, code: string, description: Wrappers.Option<string>)

  /** The `Notification.None` sentinel: level None, empty code, empty description. */
  const NoneNotification: Notification := Notification(NotificationLevel.None, "", Wrappers.Some(""))

  /** The notifications of one level, in input order (`List.FindAll`). */
  function OfLevel(ns: seq<Notification>, level: NotificationLevel): (r: seq<Notification>)
    ensures |r| <= |ns|
    ensures forall i :: 0 <= i < |r| ==> r[i].level == level
    ensures r == [] <==> forall i :: 0 <= i < |ns| ==> ns[i].level != level
  {
    if ns == [] then []
    else if ns[0].level == level then [ns[0]] + OfLevel(ns[1..], level)
    else OfLevel(ns[1..], level)
  }

  /** An item is in the filtered list iff it is in the input with that level. */
  lemma {:induction false} OfLevelMembers(ns: seq<Notification>, level: NotificationLevel)
    ensures forall n :: n in OfLevel(ns, level) <==> n in ns && n.level == level
  {
    if ns != [] {
      OfLevelMembers(ns[1..], level);
      assert ns == [ns[0]] + ns[1..];
    }
  }

  /** Filtering by level keeps the input order: it distributes over concatenation. */
  lemma {:induction false} OfLevelAppend(a: seq<Notification>, b: seq<Notification>, level: NotificationLevel)
    ensures OfLevel(a + b, level) == OfLevel(a, level) + OfLevel(b, level)
  {
    if a == [] {
      assert a + b == b;
    } else {
      assert (a + b)[1..] == a[1..] + b;
      OfLevelAppend(a[1..], b, level);
    }
  }

  /** Every notification falls into exactly one of the three levels, so the
      Error and Warning lists together miss only the None-level items. */
  lemma {:induction false} LevelPartition(ns: seq<Notification>)
    ensures |OfLevel(ns, Error)| + |OfLevel(ns, Warning)| + |OfLevel(ns, NotificationLevel.None)| == |ns|
  {
    if ns != [] {
      LevelPartition(ns[1..]);
    }
  }

  /** Routing a one-element list gives the same lists as routing the element
      itself, so `Notify(n)` and `Notify([n])` agree. */
  lemma SingletonRouting(n: Notification)
    ensures OfLevel([n], Error) == (if n.level == Error then [n] else [])
    ensures OfLevel([n], Warning) == (if n.level == Warning then [n] else [])
  {
  }

  /** The outcome of an operation: the errors and warnings it reported, each
      in the order they were added. */
  class Result {
    var errors: seq<Notification>
    var warnings: seq<Notification>

    /** The private list constructor: routes every element of `ns`. */
    constructor FromList(ns: seq<Notification>)
      ensures errors == OfLevel(ns, Error)
      ensures warnings == OfLevel(ns, Warning)
    {
      errors, warnings := [], [];
      new;
      AddNotifications(ns);
    }

    /** The private single-notification constructor: routes `n`. */
    constructor FromNotification(n: Notification)
      ensures errors == (if n.level == Error then [n] else [])
      ensures warnings == (if n.level == Warning then [n] else [])
    {
      errors, warnings := [], [];
      new;
      AddNotification(n);
    }

    /** Appends `n` to the list of its level; a None-level `n` is dropped. */
    method AddNotification(n: Notification)
      modifies this
      ensures n.level == Error ==> errors == old(errors) + [n] && warnings == old(warnings)
      ensures n.level == Warning ==> warnings == old(warnings) + [n] && errors == old(errors)
      ensures n.level == NotificationLevel.None ==> errors == old(errors) && warnings == old(warnings)
    {
      match n.level
      case Error =>
        errors := errors + [n];
      case Warning =>
        warnings := warnings + [n];
      case None =>
    }

    /** Appends the Error-level items of `ns` to `errors` and the
        Warning-level ones to `warnings`, each in input order. */
    method AddNotifications(ns: seq<Notification>)
      modifies this
      ensures errors == old(errors) + OfLevel(ns, Error)
      ensures warnings == old(warnings) + OfLevel(ns, Warning)
    {
      errors := errors + OfLevel(ns, Error);
      warnings := warnings + OfLevel(ns, Warning);
    }

    /** Success is decided by the errors alone: none was reported. */
    predicate IsSuccess()
      reads this
      ensures IsSuccess() <==> errors == []
    {
      |errors| == 0
    }

    /** Failure is the exact negation of success: some error was reported. */
    predicate IsFailure()
      reads this
      ensures IsFailure() <==> !IsSuccess()
      ensures IsFailure() <==> errors != []
    {
      |errors| != 0
    }

    /** `Result.Success()`: built from the None sentinel, which is dropped. */
    static method Success() returns (r: Result)
      ensures fresh(r)
      ensures r.errors == [] && r.warnings == []
      ensures r.IsSuccess()
    {
      r := new Result.FromNotification(NoneNotification);
    }

    /** `Result.Success(list)`: refuses any Error-level item with an
        ArgumentException; otherwise keeps the warnings in order. */
    static method SuccessFrom(ns: seq<Notification>) returns (t: Wrappers.Try<Result>)
      ensures t.Throws? <==> exists n :: n in ns && n.level == Error
      ensures t.Throws? ==> t.exception == Wrappers.ArgumentException("Invalid error notification in the list", "notifications")
      ensures t.Ok? ==> fresh(t.value)
      ensures t.Ok? ==> t.value.errors == [] && t.value.warnings == OfLevel(ns, Warning)
      ensures t.Ok? ==> t.value.IsSuccess()
    {
      if exists n :: n in ns && n.level == Error {
        return Wrappers.Throws(Wrappers.ArgumentException("Invalid error notification in the list", "notifications"));
      }
      var r := new Result.FromList(ns);
      t := Wrappers.Ok(r);
    }

    /** `Result.Notify(n)`: a failure exactly when `n` is an error. */
    static method Notify(n: Notification) returns (r: Result)
      ensures fresh(r)
      ensures r.errors == (if n.level == Error then [n] else [])
      ensures r.warnings == (if n.level == Warning then [n] else [])
      ensures r.IsFailure() <==> n.level == Error
    {
      r := new Result.FromNotification(n);
    }

    /** `Result.Notify(list)`: accepts any mix of levels; a failure exactly
        when the list holds an error. */
    static method NotifyAll(ns: seq<Notification>) returns (r: Result)
      ensures fresh(r)
      ensures r.errors == OfLevel(ns, Error) && r.warnings == OfLevel(ns, Warning)
      ensures r.IsFailure() <==> exists n :: n in ns && n.level == Error
    {
      r := new Result.FromList(ns);
    }
  }

  /** The implicit conversion from a Notification to a Result: `Notify(n)`. */
  method AsResult(n: Notification) returns (r: Result)
    ensures fresh(r)
    ensures r.errors == (if n.level == Error then [n] else [])
    ensures r.warnings == (if n.level == Warning then [n] else [])
    ensures r.IsFailure() <==> n.level == Error
  {
    r := Result.Notify(n);
  }
}
