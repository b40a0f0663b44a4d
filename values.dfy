/**
 * JavaScript values as the metadata engine sees them, the engine's error
 * kinds and a Result type for its thrown errors.
 */
module JsValues {

  /** The closures that the engine itself defines for the `inheritable` class. */
  datatype Native =
    | ProtectedImpl | StaticImpl
    | CreateImpl | CreateStore
    | AbstractImpl | AbstractStore
    | SingletonImpl | SingletonStore

  /** A function value: one of the engine's own closures, or an opaque user function. */
  datatype FnRef = Native(native: Native) | User(tag: nat)

  /**
   * The JavaScript values that flow through the engine. Objects are known by
   * a reference number; a class metadata object by its class id.
   */
  datatype Js =
    | Undefined
    | Null
    | Bool(b: bool)
    | Num(n: int)
    | Str(s: string)
    | Obj(ref: nat)
    | Fn(f: FnRef)
    | Meta(classId: string)

  /** JavaScript truthiness (`!!v`); numbers are integers here, so NaN does not arise. */
  predicate Truthy(v: Js) {
    match v
    case Undefined => false
    case Null => false
    case Bool(b) => b
    case Num(n) => n != 0
    case Str(s) => s != ""
    case _ => true
  }

  function DigitChar(d: nat): (c: char)
    requires d < 10
    ensures '0' <= c <= '9'
  {
    "0123456789"[d]
  }

  /** Decimal notation of a natural number, most significant digit first. */
  function Digits(n: nat): (s: string)
    ensures |s| > 0
    ensures forall k :: 0 <= k < |s| ==> '0' <= s[k] <= '9'
    ensures n >= 10 ==> s[0] != '0'
    ensures n < 10 <==> |s| == 1
    decreases n
  {
    if n < 10 then [DigitChar(n)] else Digits(n / 10) + [DigitChar(n % 10)]
  }

  lemma DigitCharInjective(a: nat, b: nat)
    requires a < 10 && b < 10 && DigitChar(a) == DigitChar(b)
    ensures a == b
  {
  }

  /** Decimal notation is injective: distinct numbers are written differently. */
  lemma {:induction false} DigitsInjective(a: nat, b: nat)
    requires Digits(a) == Digits(b)
    ensures a == b
    decreases a
  {
    var da, db := Digits(a), Digits(b);
    if a < 10 && b < 10 {
      DigitCharInjective(a, b);
    } else if a >= 10 && b >= 10 {
      assert da == Digits(a / 10) + [DigitChar(a % 10)];
      assert db == Digits(b / 10) + [DigitChar(b % 10)];
      assert da[..|da| - 1] == Digits(a / 10);
      assert db[..|db| - 1] == Digits(b / 10);
      DigitsInjective(a / 10, b / 10);
      assert da[|da| - 1] == DigitChar(a % 10);
      assert db[|db| - 1] == DigitChar(b % 10);
      DigitCharInjective(a % 10, b % 10);
    }
  }

  /** `String(n)` for an integer. */
  function NumberText(n: int): (s: string)
    ensures |s| > 0 && (s[0] == '-' <==> n < 0)
  {
    if n < 0 then "-" + Digits(-n) else Digits(n)
  }

  /** `String(v)` for the values the engine converts; a function's source text is not modelled. */
  function ToStr(v: Js): string {
    match v
    case Undefined => "undefined"
    case Null => "null"
    case Bool(b) => if b then "true" else "false"
    case Num(n) => NumberText(n)
    case Str(s) => s
    case Obj(_) => "[object Object]"
    case Fn(_) => "function"
    case Meta(_) => "[object Object]"
  }

  /** The text of a number never contains the separator used in class ids. */
  lemma NumberTextHasNoColon(n: int)
    ensures ':' !in ToStr(Num(n))
  {
    var s := NumberText(n);
    if n < 0 {
      assert s == "-" + Digits(-n);
      forall k | 0 <= k < |s| ensures s[k] != ':' {
        if k > 0 { assert s[k] == Digits(-n)[k - 1]; }
      }
    }
  }

  /** `String(n)` on integers is injective. */
  lemma NumberTextInjective(a: int, b: int)
    requires ToStr(Num(a)) == ToStr(Num(b))
    ensures a == b
  {
    assert ToStr(Num(a)) == NumberText(a) && ToStr(Num(b)) == NumberText(b);
    NumberTextInjectiveCore(a, b);
  }

  lemma NumberTextInjectiveCore(a: int, b: int)
    requires NumberText(a) == NumberText(b)
    ensures a == b
  {
    if a < 0 && b < 0 {
      DropSign(Digits(-a));
      DropSign(Digits(-b));
      DigitsInjective(-a, -b);
    } else if a >= 0 && b >= 0 {
      DigitsInjective(a, b);
    }
  }

  lemma DropSign(d: string)
    ensures ("-" + d)[1..] == d
  {
  }

  /** The engine's error kinds: every `throw` of the core, and a throwing callback. */
  datatype Error =
    | EnumValueNotString
    | MissingClassName
    | MissingClassVersion
    | MissingAttributes
    | ExtendsNotObject
    | ExtensionNameMissing
    | ImplementationNotFunction
    | StoreNotFunction
    | TypeNotNumber
    | ExtensionConflict(name: string)
    | AlreadyDefined(classId: string)
    | NotDefined(classId: string)
    | UnidentifiableClass
    | ConstructorNotFunction
    | UnknownExtensionType(kind: int)
    | SharedKeyExists(key: string)
    | SharedKeyRedefined(key: string)
    | AbstractInstantiation
    | DuplicateSingleton(classId: string)
    | ProtectedSpaceMissing
    | CreateNotCallable(classId: string)
    | CallbackThrew

  datatype Result<T> = Ok(value: T) | Err(error: Error)

  datatype Option<T> = None | Some(value: T)

  datatype Unit = Unit

  /**
   * What the engine cannot see into: the bodies of callbacks other than its
   * own closures. Each is a function of the callback and the class ids
   * involved; an `Err` result is a callback that throws.
   */
  datatype Host = Host(
    /** a `store` transform applied to an attribute value */
    store: (FnRef, Js) -> Result<Js>,
    /** a preInit callback of the class being instantiated; `Undefined` lets construction go on */
    preInit: (FnRef, string) -> Result<Js>,
    /** a shared modifier: `None` for a falsy result, otherwise the keys and values of the object returned */
    sharedModifier: (FnRef, string) -> Result<Option<seq<(string, Js)>>>,
    /** a per-inheritance callback, given the instantiated and the represented class ids */
    perInheritance: (FnRef, string, string) -> Result<Unit>,
    /** a complete trigger */
    complete: (FnRef, string) -> Result<Unit>,
    /** a class's own `create` function run by the `create` extension, given both class ids */
    construct: (FnRef, string, string) -> Result<Unit>)
}
