/**
 * src/lib/core.ts: the application context, the bloc repository (a registry of one shared
 * service object per class), the `Widget` helper and `eventToObserver`.
 */
module Core {
  import opened Wrappers
  import Rx

  /** A JavaScript class: the repository's key, compared by identity. */
  class BlocClass {
    constructor() { }
  }

  /** An object stored in the repository; `cls` is the class that constructed it. */
  class Bloc {
    const cls: BlocClass

    /** `new blocClass()`. */
    constructor(cls: BlocClass)
      ensures this.cls == cls
    {
      this.cls := cls;
    }
  }

  /**
   * The optional instance argument of `register`. JavaScript tests it with `!bloc`, so an omitted
   * argument and a falsy one (`undefined`, `null`, `false`, `0`, `""`, `NaN`) behave alike;
   * an object is always truthy.
   */
  datatype BlocArg = Absent | Falsy | Given(bloc: Bloc)

  /** `Error('Class was not registered in the bloc repo')`. */
  datatype RepoError = NotRegistered

  /** `BlocRepo`: the map from class to instance, held in a WeakMap keyed by the class object. */
  class BlocRepo {
    var classes: map<BlocClass, Bloc>

    constructor()
      ensures classes == map[]
    {
      classes := map[];
    }

    /** `of(blocClass)`: the registered instance, or an error when the class was never registered. */
    method Of(blocClass: BlocClass) returns (r: Result<Bloc, RepoError>)
      ensures blocClass in classes <==> r.Success?
      ensures r.Success? ==> r.value == classes[blocClass]
      ensures r.Failure? ==> r.error == NotRegistered
    {
      if blocClass in classes {
        r := Success(classes[blocClass]);
      } else {
        r := Failure(NotRegistered);
      }
    }

    /**
     * `register(blocClass, bloc?)`: stores `bloc` under `blocClass`, or a freshly constructed
     * instance when `bloc` is omitted or falsy, replacing any earlier entry; no other entry changes.
     */
    method Register(blocClass: BlocClass, bloc: BlocArg)
      modifies this
      ensures blocClass in classes
      ensures bloc.Given? ==> classes[blocClass] == bloc.bloc
      ensures !bloc.Given? ==> fresh(classes[blocClass]) && classes[blocClass].cls == blocClass
      ensures classes == old(classes)[blocClass := classes[blocClass]]
    {
      var instance: Bloc;
      if !bloc.Given? {
        instance := new Bloc(blocClass);
      } else {
        instance := bloc.bloc;
      }
      classes := classes[blocClass := instance];
    }
  }

  /** `Context`: owns one bloc repository, created with it. */
  class Context {
    const blocs: BlocRepo

    constructor()
      ensures fresh(blocs) && blocs.classes == map[]
    {
      blocs := new BlocRepo();
    }
  }

  /** The type `Widget<P>`: a function from the context and optional props to a render result. */
  type WidgetFn<!P, R> = (Context, Option<P>) -> R

  /** The function `Widget`: gives back the widget it is passed, for its type only. */
  function Widget<P, R>(widget: WidgetFn<P, R>): (r: WidgetFn<P, R>)
    ensures r == widget
  {
    widget
  }

  /** A value handed to the observer: the event itself, or what the mapper made of it. */
  datatype Either<T, E> = Raw(event: T) | Mapped(value: E)

  /**
   * What the handler returned by `eventToObserver(subject, mapper?)` passes to `subject.next` for
   * the event `e`: the mapped event when a mapper is given, the event itself otherwise.
   */
  function EventToObserver<T, E>(mapper: Option<T -> E>, e: T): (v: Either<T, E>)
    ensures mapper.None? <==> v.Raw?
    ensures v.Raw? ==> v.event == e
    ensures v.Mapped? ==> v.value == mapper.value(e)
  {
    match mapper
    case Some(f) => Mapped(f(e))
    case None => Raw(e)
  }

  /** Calling that handler on the event `e`: exactly one `next`, with that value. */
  method HandleEvent<T, E>(subject: Rx.Subject<Either<T, E>>, mapper: Option<T -> E>, e: T)
    requires subject.Valid()
    modifies subject
    ensures subject.Valid()
    ensures subject.completed == old(subject.completed)
    ensures subject.log == if old(subject.completed) then old(subject.log)
                           else old(subject.log) + [EventToObserver(mapper, e)]
  {
    subject.Next(EventToObserver(mapper, e));
  }

  // ---------------------------------------------------------------------------------------------
  // The repository's behaviour on fresh repositories, stated as verified methods

  /** Registering a class twice keeps only the second instance (last write wins, no merge). */
  method LastWriteWins(c: BlocClass, b1: Bloc, b2: Bloc) returns (first: Result<Bloc, RepoError>, second: Result<Bloc, RepoError>)
    ensures first == Success(b1)
    ensures second == Success(b2)
  {
    var repo := new BlocRepo();
    repo.Register(c, Given(b1));
    first := repo.Of(c);
    repo.Register(c, Given(b2));
    second := repo.Of(c);
  }

  /** Registering with no instance, or a falsy one, stores a new instance of that very class. */
  method RegisterConstructs(c: BlocClass, arg: BlocArg) returns (r: Result<Bloc, RepoError>)
    requires !arg.Given?
    ensures r.Success? && r.value.cls == c
  {
    var repo := new BlocRepo();
    repo.Register(c, arg);
    r := repo.Of(c);
  }

  /** Looking up a class that was never registered fails, also after other classes were registered. */
  method OfUnregistered(c: BlocClass, other: BlocClass, arg: BlocArg) returns (r: Result<Bloc, RepoError>)
    requires other != c
    ensures r == Failure(NotRegistered)
  {
    var repo := new BlocRepo();
    repo.Register(other, arg);
    r := repo.Of(c);
  }

  /** Registering one class leaves the entry of another class as it was. */
  method RegisterLeavesOthers(c: BlocClass, b: Bloc, other: BlocClass, arg: BlocArg) returns (r: Result<Bloc, RepoError>)
    requires other != c
    ensures r == Success(b)
  {
    var repo := new BlocRepo();
    repo.Register(c, Given(b));
    repo.Register(other, arg);
    r := repo.Of(c);
  }
}
