/** Query: a search request bean, and the parsing of its textual offset. */
module Query {
  import opened Wrappers
  import opened JavaText

  /** A Java `int`. */
  newtype int32 = x: int | -0x8000_0000 <= x < 0x8000_0000

  const MaxInt: int := 0x7FFF_FFFF
  const DefaultLimit: int32 := 30

  /** Integer.valueOf throws NumberFormatException above Integer.MAX_VALUE. */
  datatype QueryError = NumberFormat(text: string)

  predicate IsAsciiDigit(c: char) {
    '0' <= c <= '9'
  }

  predicate AllDigits(s: string) {
    forall i :: 0 <= i < |s| ==> IsAsciiDigit(s[i])
  }

  /** The pattern ^[0-9]+$ under matches(): one or more ASCII digits and
      nothing else. */
  predicate IsNumber(s: string) {
    |s| > 0 && AllDigits(s)
  }

  function DigitValue(c: char): (d: nat)
    requires IsAsciiDigit(c)
    ensures d < 10
  {
    c as int - '0' as int
  }

  /** The decimal value of a digit string. */
  function DecimalValue(s: string): nat
    requires AllDigits(s)
  {
    if s == [] then 0 else 10 * DecimalValue(s[..|s| - 1]) + DigitValue(s[|s| - 1])
  }

  function Zeros(k: nat): (z: string)
    ensures |z| == k && forall i :: 0 <= i < k ==> z[i] == '0'
  {
    seq(k, _ => '0')
  }

  /** getOffsetAsLong: null or blank gives 0, a digit string its value (or
      the exception Integer.valueOf throws), anything else 0. */
  function OffsetAsLong(offset: Option<string>): (r: Result<int, QueryError>)
    ensures r.Success? ==> 0 <= r.value <= MaxInt
    ensures r.Failure? <==> offset.Some? && IsNumber(offset.value) && DecimalValue(offset.value) > MaxInt
    ensures r.Success? && r.value != 0 ==> offset.Some? && IsNumber(offset.value) && r.value == DecimalValue(offset.value)
    ensures offset.Some? && IsNumber(offset.value) && DecimalValue(offset.value) <= MaxInt ==> r == Success(DecimalValue(offset.value))
  {
    if offset.None? || "" == Trim(offset.value) then Success(0)
    else if IsNumber(offset.value) then
      var n := DecimalValue(offset.value);
      if n > MaxInt then Failure(NumberFormat(offset.value)) else Success(n)
    else Success(0)
  }

  /** A digit string is never blank. */
  lemma NumbersAreNotBlank(s: string)
    requires IsNumber(s)
    ensures Trim(s) != ""
  {
    TrimEmptyIff(s);
    assert !(s[0] <= ' ');
  }

  /** Integer.toString(n) for a non-negative n. */
  function DecimalString(n: nat): (s: string)
    ensures IsNumber(s)
  {
    if n < 10 then [('0' as int + n) as char] else DecimalString(n / 10) + [('0' as int + n % 10) as char]
  }

  /** The digits of n read back as n. */
  lemma {:induction false} DecimalRoundTrip(n: nat)
    ensures DecimalValue(DecimalString(n)) == n
  {
    if n >= 10 {
      var s := DecimalString(n);
      assert s[..|s| - 1] == DecimalString(n / 10);
      DecimalRoundTrip(n / 10);
    }
  }

  /** Every offset setOffset(String.valueOf(n)) stores for an int n >= 0 reads back as n. */
  lemma OffsetRoundTrip(n: nat)
    requires n <= MaxInt
    ensures OffsetAsLong(Some(DecimalString(n))) == Success(n)
  {
    NumbersAreNotBlank(DecimalString(n));
    DecimalRoundTrip(n);
  }

  /** Leading zeros do not change the value. */
  lemma {:induction false} LeadingZerosIgnored(k: nat, s: string)
    requires AllDigits(s)
    ensures AllDigits(Zeros(k) + s)
    ensures DecimalValue(Zeros(k) + s) == DecimalValue(s)
    decreases |s|, k
  {
    var z := Zeros(k);
    assert AllDigits(z + s) by {
      forall i | 0 <= i < |z + s| ensures IsAsciiDigit((z + s)[i]) {
        if i >= k { assert (z + s)[i] == s[i - k]; }
      }
    }
    if s == [] {
      assert z + s == z;
      if k > 0 {
        assert z[..k - 1] == Zeros(k - 1);
        LeadingZerosIgnored(k - 1, s);
        assert Zeros(k - 1) + s == z[..k - 1];
      }
    } else {
      var init := s[..|s| - 1];
      assert (z + s)[..|z + s| - 1] == z + init;
      LeadingZerosIgnored(k, init);
    }
  }

  /** An offset written with leading zeros still reads as its value. */
  lemma PaddedOffsetRoundTrip(k: nat, n: nat)
    requires n <= MaxInt
    ensures OffsetAsLong(Some(Zeros(k) + DecimalString(n))) == Success(n)
  {
    LeadingZerosIgnored(k, DecimalString(n));
    DecimalRoundTrip(n);
    NumbersAreNotBlank(Zeros(k) + DecimalString(n));
  }

  /** Anything but digits, once non-blank, is an unknown number and gives 0:
      " 5" and "-5" both read as 0. */
  lemma SignsAndSpacesGiveZero()
    ensures OffsetAsLong(Some(" 5")) == Success(0)
    ensures OffsetAsLong(Some("-5")) == Success(0)
  {
    assert !IsNumber(" 5") by { assert !IsAsciiDigit(" 5"[0]); }
    assert !IsNumber("-5") by { assert !IsAsciiDigit("-5"[0]); }
    assert Trim(" 5") != "" by { TrimEmptyIff(" 5"); assert !(" 5"[1] <= ' '); }
    assert Trim("-5") != "" by { TrimEmptyIff("-5"); assert !("-5"[0] <= ' '); }
  }

  datatype StatementType = Or | And
  datatype OrderDirection = Asc | Desc
  datatype ConditionType = Eq | Neq | Gt | Gte | Lt | Lte | In | Nin | Contains | StartsWithText | EndsWithText | Between

  /** Condition, over operand values of type V. */
  datatype Condition<V> = Condition(conditionType: ConditionType, field: Option<string>,
                                    from: Option<V>, to: Option<V>, value: Option<V>, list: Option<seq<V>>)

  /** new Condition(): type EQ, every other field null. */
  function NewCondition<V>(): (c: Condition<V>)
    ensures c.conditionType == Eq
    ensures c.field.None? && c.from.None? && c.to.None? && c.value.None? && c.list.None?
  {
    Condition(Eq, None, None, None, None, None)
  }

  datatype Statement<V> = Statement(statementType: StatementType, conditions: seq<Condition<V>>)

  /** new Statement(): type AND and no conditions. */
  function NewStatement<V>(): (s: Statement<V>)
    ensures s.statementType == And && s.conditions == []
  {
    Statement(And, [])
  }

  datatype Order = Order(field: Option<string>, direction: Option<OrderDirection>)

  /** new Order(): both fields null. */
  function NewOrder(): (o: Order)
    ensures o.field.None? && o.direction.None?
  {
    Order(None, None)
  }

  /** The query bean. */
  class Query<V> {
    var sortOrder: seq<Order>
    var fields: set<string>
    var statements: seq<Statement<V>>
    var offset: Option<string>
    var limit: int32

    constructor ()
      ensures sortOrder == [] && fields == {} && statements == []
      ensures offset.None? && limit == DefaultLimit
    {
      sortOrder := [];
      fields := {};
      statements := [];
      offset := None;
      limit := DefaultLimit;
    }

    /** getOffsetAsLong, over the current offset. */
    function GetOffsetAsLong(): (r: Result<int, QueryError>)
      reads this
      ensures r.Success? ==> 0 <= r.value <= MaxInt
    {
      OffsetAsLong(offset)
    }

    method SetFields(fields: set<string>)
      modifies this
      ensures this.fields == fields
      ensures sortOrder == old(sortOrder) && statements == old(statements)
      ensures offset == old(offset) && limit == old(limit)
    {
      this.fields := fields;
    }

    method SetStatements(statements: seq<Statement<V>>)
      modifies this
      ensures this.statements == statements
      ensures sortOrder == old(sortOrder) && fields == old(fields)
      ensures offset == old(offset) && limit == old(limit)
    {
      this.statements := statements;
    }

    method SetOffset(offset: Option<string>)
      modifies this
      ensures this.offset == offset
      ensures sortOrder == old(sortOrder) && fields == old(fields)
      ensures statements == old(statements) && limit == old(limit)
    {
      this.offset := offset;
    }

    method SetLimit(limit: int32)
      modifies this
      ensures this.limit == limit
      ensures sortOrder == old(sortOrder) && fields == old(fields)
      ensures statements == old(statements) && offset == old(offset)
    {
      this.limit := limit;
    }

    method SetSortOrder(sortOrder: seq<Order>)
      modifies this
      ensures this.sortOrder == sortOrder
      ensures fields == old(fields) && statements == old(statements)
      ensures offset == old(offset) && limit == old(limit)
    {
      this.sortOrder := sortOrder;
    }
  }
}
