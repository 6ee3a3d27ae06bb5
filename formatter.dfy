/**
 * Exceptions\Api\MultipleContentApi::create: one message listing every
 * per-content error the Multiple Content API reported, in order.
 */
module ContentErrors {
  import opened Results

  const Header := "The following errors found when calling Multiple Content API:"
  const Bullet := "\n-  "

  /** One bullet line per error text, in input order. */
  function Lines(errors: seq<string>): string
    decreases |errors|
  {
    if errors == [] then ""
    else Lines(errors[..|errors| - 1]) + Bullet + errors[|errors| - 1]
  }

  function Message(errors: seq<string>): string
  {
    Header + Lines(errors)
  }

  /** create($errors): the foreach that appends one line per error. */
  method Create(errors: seq<string>) returns (e: Error)
    ensures e == MultipleContentApi(Message(errors))
    ensures errors == [] ==> e.message == Header
  {
    var message := Header;
    for i := 0 to |errors|
      invariant message == Header + Lines(errors[..i])
    {
      assert errors[..i + 1][..i] == errors[..i];
      message := message + Bullet + errors[i];
    }
    assert errors[..|errors|] == errors;
    return MultipleContentApi(message);
  }

  /** Where the line of errors[i] begins in the message. */
  function Offset(errors: seq<string>, i: nat): nat
    requires i <= |errors|
  {
    |Header| + |Lines(errors[..i])|
  }

  /** The lines of a prefix of the errors are a prefix of the lines of all of them. */
  lemma {:induction false} LinesPrefix(errors: seq<string>, k: nat)
    requires k <= |errors|
    ensures Lines(errors[..k]) <= Lines(errors)
    decreases |errors| - k
  {
    if k < |errors| {
      LinesPrefix(errors, k + 1);
      assert errors[..k + 1][..k] == errors[..k];
    } else {
      assert errors[..k] == errors;
    }
  }

  /**
   * Each error text appears in the message, right after its own bullet, at
   * an offset that grows with its position: the lines keep input order and
   * none of them is dropped.
   */
  lemma ErrorAt(errors: seq<string>, i: nat)
    requires i < |errors|
    ensures Offset(errors, i) + |Bullet| + |errors[i]| == Offset(errors, i + 1)
    ensures Offset(errors, i + 1) <= |Message(errors)|
    ensures Message(errors)[Offset(errors, i)..Offset(errors, i + 1)] == Bullet + errors[i]
  {
    LinesPrefix(errors, i + 1);
    var before := Lines(errors[..i]);
    assert errors[..i + 1][..i] == errors[..i];
    assert Lines(errors[..i + 1]) == before + Bullet + errors[i];
    var m := Message(errors);
    assert m[..Offset(errors, i + 1)] == Header + before + Bullet + errors[i];
  }

  /** Later errors start after earlier ones end. */
  lemma OffsetsIncrease(errors: seq<string>, i: nat, j: nat)
    requires i < j <= |errors|
    ensures Offset(errors, i) + |Bullet| + |errors[i]| <= Offset(errors, j)
  {
    ErrorAt(errors, i);
    LinesPrefix(errors[..j], i + 1);
    assert errors[..j][..i + 1] == errors[..i + 1];
  }

  /** The message is exactly the header and the bullet lines: its length accounts for every error. */
  lemma {:induction false} MessageLength(errors: seq<string>)
    ensures |Message(errors)| == |Header| + |errors| * |Bullet| + TotalLength(errors)
    decreases |errors|
  {
    if errors != [] {
      var init := errors[..|errors| - 1];
      MessageLength(init);
      TotalLengthSnoc(init, errors[|errors| - 1]);
      assert init + [errors[|errors| - 1]] == errors;
    }
  }

  function TotalLength(errors: seq<string>): nat
  {
    if errors == [] then 0 else |errors[0]| + TotalLength(errors[1..])
  }

  lemma {:induction false} TotalLengthSnoc(errors: seq<string>, e: string)
    ensures TotalLength(errors + [e]) == TotalLength(errors) + |e|
    decreases |errors|
  {
    if errors != [] {
      TotalLengthSnoc(errors[1..], e);
      assert (errors + [e])[1..] == errors[1..] + [e];
    }
  }
}
