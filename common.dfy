/** Values shared by every part of the note store: optional values (JavaScript's
    `undefined`), identifiers, the ObjectId validity rule, store errors and the
    shape of a route handler's answer. */
module Common {

  /** `None` stands for JavaScript's `undefined` (an absent field). */
  datatype Option<T> = None | Some(value: T)

  /** Document identifiers and user identifiers are strings on the wire. */
  type Id = string
  type UserId = string

  predicate IsHexDigit(c: char) {
    '0' <= c <= '9' || 'a' <= c <= 'f' || 'A' <= c <= 'F'
  }

  /** `mongoose.Types.ObjectId.isValid` on a string: any 12-character string
      (read as 12 raw bytes) or a 24-character hexadecimal string. */
  predicate IsValidObjectId(s: string) {
    |s| == 12 || (|s| == 24 && forall i :: 0 <= i < |s| ==> IsHexDigit(s[i]))
  }

  /** The same check applied to a possibly absent value: `undefined` is never valid. */
  predicate IsValidId(v: Option<string>) {
    v.Some? && IsValidObjectId(v.value)
  }

  /** JavaScript truthiness of a possibly absent string: absent and "" are falsy. */
  predicate Truthy(v: Option<string>) {
    v.Some? && v.value != ""
  }

  /** A failure raised by the document store. `DuplicateKey` is MongoDB's
      error code 11000; `MissingRequired` is a failed `required` validator;
      `CastError` is a query value that is not a valid ObjectId. */
  datatype StoreError = DuplicateKey | MissingRequired(path: string) | CastError(path: string)

  /** The settled value of a store call: resolved with a value or rejected. */
  datatype Result<T> = Ok(value: T) | Err(error: StoreError)

  /** An error handed to `next(err)` without a `status`: what the wire status
      becomes is decided by the application's error handler. */
  datatype Fault =
    | StoreFault(error: StoreError)
    | ReferenceError(name: string)   // use of an undeclared identifier
    | TypeError(what: string)        // a method called on a non-array

  /** The outcome of one route handler. */
  datatype Response<B> =
    | Json(body: B)                 // res.json(body), status 200
    | NoContent                     // res.status(204).end()
    | BadRequest(message: string)   // next(err) with err.status = 400
    | FallThrough                   // next() with no error: not found
    | Unhandled(fault: Fault)       // next(err) with no status

  /** The answer when a save fails: MongoDB's duplicate-key error becomes a
      400 with the route's own message, and any other error is passed on
      unchanged. */
  function StoreFailure<B>(e: StoreError, message: string): (resp: Response<B>)
    ensures e.DuplicateKey? <==> resp == BadRequest(message)
    ensures !e.DuplicateKey? <==> resp == Unhandled(StoreFault(e))
  {
    if e.DuplicateKey? then BadRequest(message) else Unhandled(StoreFault(e))
  }

  /** `s` occurs in `text` as a contiguous substring. */
  predicate Contains(text: string, s: string) {
    exists i, j :: 0 <= i <= j <= |text| && text[i..j] == s
  }

  /** Number of occurrences of `x` in `s`. */
  function Count<T(==)>(s: seq<T>, x: T): (n: nat)
    ensures n <= |s|
    ensures n == 0 <==> x !in s
  {
    if s == [] then 0 else (if s[0] == x then 1 else 0) + Count(s[1..], x)
  }

  /** `n` copies of `x`. */
  function Repeat<T>(x: T, n: nat): (r: seq<T>)
    ensures |r| == n
    ensures forall i :: 0 <= i < n ==> r[i] == x
  {
    if n == 0 then [] else [x] + Repeat(x, n - 1)
  }

  /** No element occurs twice. */
  predicate Distinct<T(==)>(s: seq<T>) {
    forall i, j :: 0 <= i < j < |s| ==> s[i] != s[j]
  }

  /** Counting over a sequence grown at its end. */
  lemma {:induction false} CountSnoc<T>(s: seq<T>, y: T, x: T)
    ensures Count(s + [y], x) == Count(s, x) + (if y == x then 1 else 0)
  {
    if s != [] {
      assert (s + [y])[1..] == s[1..] + [y];
      CountSnoc(s[1..], y, x);
    }
  }

  lemma {:induction false} RepeatAdd<T>(x: T, m: nat, n: nat)
    ensures Repeat(x, m) + Repeat(x, n) == Repeat(x, m + n)
  {
    if m > 0 {
      RepeatAdd(x, m - 1, n);
      assert Repeat(x, m) + Repeat(x, n) == [x] + (Repeat(x, m - 1) + Repeat(x, n));
    }
  }

  /** The elements of a sequence, as a set, are no more than its length, and
      exactly as many when no element repeats. */
  lemma {:induction false} SetOfSeqSize<T>(s: seq<T>)
    ensures |set x | x in s| <= |s|
    ensures |set x | x in s| == |s| <==> Distinct(s)
  {
    if s != [] {
      var tail := s[1..];
      SetOfSeqSize(tail);
      var st := set x | x in tail;
      assert (set x | x in s) == st + {s[0]};
      if s[0] in tail {
        var j :| 0 <= j < |tail| && tail[j] == s[0];
        assert s[0] == s[j + 1];
        assert !Distinct(s);
      } else {
        assert Distinct(s) <==> Distinct(tail) by {
          if Distinct(tail) {
            forall i, j | 0 <= i < j < |s| ensures s[i] != s[j] {
              if i > 0 {
                assert s[i] == tail[i - 1] && s[j] == tail[j - 1];
              } else {
                assert s[j] in tail;
              }
            }
          }
          if Distinct(s) {
            forall i, j | 0 <= i < j < |tail| ensures tail[i] != tail[j] {
              assert tail[i] == s[i + 1] && tail[j] == s[j + 1];
            }
          }
        }
      }
    }
  }
}
