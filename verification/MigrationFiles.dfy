/** db/migrate.py: which files of the migrations directory are migrations, and their order. */
module MigrationFiles {
  import opened Wrappers

  /** A file of the migrations directory and the SQL in it. */
  datatype File = File(name: string, text: string)

  // ---- the naming convention ----

  predicate IsDigit(c: char) {
    '0' <= c <= '9'
  }

  function DigitPrefix(name: string): (n: nat)
    ensures n <= |name| && AllDigits(name[..n])
    ensures n < |name| ==> !IsDigit(name[n])
  {
    if name != "" && IsDigit(name[0]) then 1 + DigitPrefix(name[1..]) else 0
  }

  predicate AllDigits(s: string) {
    forall i | 0 <= i < |s| :: IsDigit(s[i])
  }

  function Value(digits: string): nat
    requires AllDigits(digits)
  {
    if digits == "" then 0 else 10 * Value(digits[..|digits| - 1]) + (digits[|digits| - 1] - '0') as nat
  }

  /** The number of a file named digits, underscore, anything on one line, ".sql". */
  function NumberOf(name: string): Option<nat> {
    var d := DigitPrefix(name);
    if d > 0 && |name| >= d + 5 && name[d] == '_' && name[|name| - 4..] == ".sql" && '\n' !in name[d + 1..|name| - 4]
    then Some(Value(name[..d])) else None
  }

  lemma {:induction false} DigitPrefixStops(digits: string, rest: string)
    requires AllDigits(digits)
    requires rest == "" || !IsDigit(rest[0])
    ensures DigitPrefix(digits + rest) == |digits|
  {
    if digits == "" {
      assert digits + rest == rest;
    } else {
      assert (digits + rest)[1..] == digits[1..] + rest;
      DigitPrefixStops(digits[1..], rest);
    }
  }

  ghost predicate Spells(name: string, digits: string, middle: string) {
    name == digits + "_" + middle + ".sql" && digits != "" && AllDigits(digits) && '\n' !in middle
  }

  lemma SpelledNumber(name: string, digits: string, middle: string)
    requires Spells(name, digits, middle)
    ensures NumberOf(name) == Some(Value(digits))
  {
    assert name == digits + ("_" + middle + ".sql");
    DigitPrefixStops(digits, "_" + middle + ".sql");
    assert name[..|digits|] == digits && name[|digits| + 1..|name| - 4] == middle;
  }

  /** A name has a number exactly when it can be read as NNN_description.sql, and then in one way. */
  lemma NumberOfReads(name: string, n: nat)
    ensures NumberOf(name) == Some(n) <==> exists digits, middle :: Spells(name, digits, middle) && Value(digits) == n
  {
    hide Value;
    if NumberOf(name) == Some(n) {
      var d := DigitPrefix(name);
      assert name == name[..d] + "_" + name[d + 1..|name| - 4] + ".sql";
      assert Spells(name, name[..d], name[d + 1..|name| - 4]);
    }
    if digits, middle :| Spells(name, digits, middle) && Value(digits) == n {
      SpelledNumber(name, digits, middle);
    }
  }

  // ---- what the number is ----

  function DigitChar(d: nat): char
    requires d < 10
  {
    "0123456789"[d]
  }

  /** The usual way to write a number. */
  function Decimal(n: nat): (s: string)
    ensures s != "" && AllDigits(s)
  {
    if n < 10 then [DigitChar(n)] else Decimal(n / 10) + [DigitChar(n % 10)]
  }

  lemma ValueSnoc(s: string, c: char)
    requires AllDigits(s) && IsDigit(c)
    ensures AllDigits(s + [c]) && Value(s + [c]) == 10 * Value(s) + (c - '0') as nat
  {
    assert (s + [c])[..|s|] == s;
  }

  lemma DigitCharIs(d: nat)
    requires d < 10
    ensures IsDigit(DigitChar(d)) && (DigitChar(d) - '0') as nat == d
  {
  }

  /** A number as it is written is that number. */
  lemma {:induction false} ValueOfDecimal(n: nat)
    ensures Value(Decimal(n)) == n
  {
    hide Value, DigitChar, IsDigit;
    DigitCharIs(n % 10);
    if n < 10 {
      assert [DigitChar(n)] == "" + [DigitChar(n)];
      ValueSnoc("", DigitChar(n));
      NoDigits();
    } else {
      ValueOfDecimal(n / 10);
      ValueSnoc(Decimal(n / 10), DigitChar(n % 10));
    }
  }

  lemma NoDigits()
    ensures Value("") == 0
  {
  }

  /** Zeros in front change nothing. */
  lemma {:induction false} LeadingZero(s: string)
    requires AllDigits(s)
    ensures AllDigits("0" + s) && Value("0" + s) == Value(s)
  {
    if s == "" {
      assert "0" + s == "" + ['0'];
      ValueSnoc("", '0');
    } else {
      var front, last := s[..|s| - 1], s[|s| - 1];
      LeadingZero(front);
      assert "0" + s == ("0" + front) + [last];
      ValueSnoc("0" + front, last);
    }
  }

  /** Of two strings of one length, the first is smaller at the first place where they differ. */
  predicate ComesFirst(a: string, b: string)
    requires |a| == |b|
  {
    exists i :: 0 <= i < |a| && a[i] < b[i] && forall j | 0 <= j < i :: a[j] == b[j]
  }

  /** Numbers written with as many digits are ordered as their texts are. */
  lemma {:induction false} ValueOrders(a: string, b: string)
    requires AllDigits(a) && AllDigits(b) && |a| == |b|
    ensures Value(a) < Value(b) <==> ComesFirst(a, b)
    decreases |a|
  {
    if a != "" {
      var n := |a| - 1;
      var x, y := a[..n], b[..n];
      ValueOrders(x, y);
      ValueOrders(y, x);
      FrontDecides(a, b);
      if !ComesFirst(x, y) && !ComesFirst(y, x) {
        SameText(x, y);
      }
    }
  }

  lemma FrontDecides(a: string, b: string)
    requires |a| == |b| > 0
    ensures var x, y := a[..|a| - 1], b[..|b| - 1];
            ComesFirst(a, b) <==> ComesFirst(x, y) || (x == y && a[|a| - 1] < b[|b| - 1])
  {
    var x, y := a[..|a| - 1], b[..|b| - 1];
    if i :| 0 <= i < |x| && x[i] < y[i] && forall j | 0 <= j < i :: x[j] == y[j] {
      assert a[i] < b[i] && forall j | 0 <= j < i :: a[j] == x[j] && b[j] == y[j];
    }
    if x == y && a[|a| - 1] < b[|b| - 1] {
      assert forall j | 0 <= j < |x| :: a[j] == x[j] && b[j] == y[j];
    }
    if i :| 0 <= i < |a| && a[i] < b[i] && forall j | 0 <= j < i :: a[j] == b[j] {
      if i < |x| {
        assert x[i] < y[i] && forall j | 0 <= j < i :: x[j] == y[j];
      }
    }
  }

  lemma {:induction false} SameText(a: string, b: string)
    requires |a| == |b| && !ComesFirst(a, b) && !ComesFirst(b, a)
    ensures a == b
  {
    hide ComesFirst;
    if a != "" {
      FrontDecides(a, b);
      FrontDecides(b, a);
      SameText(a[..|a| - 1], b[..|b| - 1]);
      assert a == a[..|a| - 1] + [a[|a| - 1]] && b == b[..|b| - 1] + [b[|b| - 1]];
    }
  }

  /** A file whose name keeps the convention. */
  predicate Numbered(f: File) {
    NumberOf(f.name).Some?
  }

  function Number(f: File): nat {
    if Numbered(f) then NumberOf(f.name).value else 0
  }

  // ---- the order ----

  predicate Ascending(s: seq<File>) {
    forall i, j | 0 <= i < j < |s| :: Number(s[i]) <= Number(s[j])
  }

  /** Behind every file whose number is not larger. */
  function Insert(s: seq<File>, x: File): seq<File> {
    if s == [] || Number(s[|s| - 1]) <= Number(x) then s + [x] else Insert(s[..|s| - 1], x) + [s[|s| - 1]]
  }

  /** A stable sort on the number alone. */
  function SortByNumber(s: seq<File>): seq<File> {
    if s == [] then [] else Insert(SortByNumber(s[..|s| - 1]), s[|s| - 1])
  }

  /** The files with this number, in order. */
  function WithNumber(s: seq<File>, n: nat): seq<File> {
    if s == [] then [] else WithNumber(s[..|s| - 1], n) + (if Number(s[|s| - 1]) == n then [s[|s| - 1]] else [])
  }

  lemma WithNumberSnoc(s: seq<File>, x: File, n: nat)
    ensures WithNumber(s + [x], n) == WithNumber(s, n) + if Number(x) == n then [x] else []
  {
    assert (s + [x])[..|s|] == s;
  }

  lemma {:induction false} WithNumberHas(s: seq<File>, n: nat)
    ensures forall f | f in s && Number(f) == n :: f in WithNumber(s, n)
    ensures forall f | f in WithNumber(s, n) :: f in s && Number(f) == n
    ensures (forall f | f in s :: Number(f) != n) ==> WithNumber(s, n) == []
  {
    hide Number;
    if s != [] {
      WithNumberHas(s[..|s| - 1], n);
      assert s == s[..|s| - 1] + [s[|s| - 1]];
    }
  }

  lemma {:induction false} InsertSorts(s: seq<File>, x: File)
    requires Ascending(s)
    ensures Ascending(Insert(s, x)) && multiset(Insert(s, x)) == multiset(s) + multiset{x}
  {
    hide Number;
    if s != [] && Number(s[|s| - 1]) > Number(x) {
      var front, last := s[..|s| - 1], s[|s| - 1];
      var r := Insert(front, x);
      InsertSorts(front, x);
      assert s == front + [last];
      forall y | y in r ensures Number(y) <= Number(last) {
        assert y in multiset(r);
      }
    }
  }

  lemma {:induction false} InsertIsStable(s: seq<File>, x: File, n: nat)
    ensures WithNumber(Insert(s, x), n) == WithNumber(s + [x], n)
  {
    hide WithNumber, Number;
    if s != [] && Number(s[|s| - 1]) > Number(x) {
      var front, last := s[..|s| - 1], s[|s| - 1];
      InsertIsStable(front, x, n);
      assert s == front + [last];
      WithNumberSnoc(front, x, n);
      WithNumberSnoc(front, last, n);
      WithNumberSnoc(s, x, n);
      WithNumberSnoc(Insert(front, x), last, n);
    }
  }

  lemma {:induction false} SortSorts(s: seq<File>)
    ensures Ascending(SortByNumber(s)) && multiset(SortByNumber(s)) == multiset(s)
  {
    hide Number, Insert;
    if s != [] {
      SortSorts(s[..|s| - 1]);
      InsertSorts(SortByNumber(s[..|s| - 1]), s[|s| - 1]);
      assert s == s[..|s| - 1] + [s[|s| - 1]];
    }
  }

  lemma {:induction false} SortIsStable(s: seq<File>, n: nat)
    ensures WithNumber(SortByNumber(s), n) == WithNumber(s, n)
  {
    hide WithNumber, Number, Insert;
    if s != [] {
      var front, last := s[..|s| - 1], s[|s| - 1];
      SortIsStable(front, n);
      InsertIsStable(SortByNumber(front), last, n);
      WithNumberSnoc(SortByNumber(front), last, n);
      assert s == front + [last];
      WithNumberSnoc(front, last, n);
    }
  }

  lemma LargestNumber(a: seq<File>, b: seq<File>)
    requires Ascending(a) && b != []
    requires WithNumber(a, Number(b[|b| - 1])) == WithNumber(b, Number(b[|b| - 1]))
    ensures a != [] && Number(a[|a| - 1]) >= Number(b[|b| - 1])
  {
    var y := b[|b| - 1];
    WithNumberHas(b, Number(y));
    WithNumberHas(a, Number(y));
    assert y in b;
  }

  lemma CancelLast<T>(u: seq<T>, v: seq<T>, last: seq<T>)
    requires u + last == v + last
    ensures u == v
  {
    assert |u| == |v|;
    assert u == (u + last)[..|u|] && v == (v + last)[..|u|];
  }

  /** An ascending sequence is told by what it has of each number, in order: there is one stable sort. */
  lemma {:induction false} OneStableSort(a: seq<File>, b: seq<File>)
    requires Ascending(a) && Ascending(b)
    requires forall n :: WithNumber(a, n) == WithNumber(b, n)
    ensures a == b
  {
    hide WithNumber, Number;
    if b != [] {
      LargestNumber(a, b);
    }
    if a != [] {
      LargestNumber(b, a);
      var a', b', x, y := a[..|a| - 1], b[..|b| - 1], a[|a| - 1], b[|b| - 1];
      assert a == a' + [x] && b == b' + [y];
      WithNumberSnoc(a', x, Number(x));
      WithNumberSnoc(b', y, Number(x));
      assert x == WithNumber(a, Number(x))[|WithNumber(a, Number(x))| - 1] == y;
      forall n ensures WithNumber(a', n) == WithNumber(b', n) {
        WithNumberSnoc(a', x, n);
        WithNumberSnoc(b', y, n);
        CancelLast(WithNumber(a', n), WithNumber(b', n), if Number(x) == n then [x] else []);
      }
      OneStableSort(a', b');
    }
  }

  // ---- discovery ----

  /** The names at the front that keep the convention. */
  function NumberedPrefix(listing: seq<File>): (n: nat)
    ensures n <= |listing| && (forall i | 0 <= i < n :: Numbered(listing[i]))
            && (n < |listing| ==> !Numbered(listing[n]))
  {
    if listing != [] && Numbered(listing[0]) then 1 + NumberedPrefix(listing[1..]) else 0
  }

  /** What a directory listing is turned into, or the first name that breaks the convention. */
  function Discovered(listing: seq<File>): Result<seq<File>, string> {
    var n := NumberedPrefix(listing);
    if n < |listing| then Err(listing[n].name) else Ok(SortByNumber(listing))
  }

  method DiscoverMigrations(listing: seq<File>) returns (r: Result<seq<File>, string>)
    ensures r == Discovered(listing)
    ensures r.Ok? <==> forall f | f in listing :: Numbered(f)
    ensures r.Ok? ==> multiset(r.value) == multiset(listing) && Ascending(r.value)
  {
    hide NumberOf, Number, SortByNumber;
    DiscoveryOrders(listing);
    var numbered: seq<File> := [];
    for i := 0 to |listing|
      invariant numbered == listing[..i] && forall k | 0 <= k < i :: Numbered(listing[k])
    {
      if !Numbered(listing[i]) {
        assert listing[i] in listing;
        return Err(listing[i].name);
      }
      numbered := numbered + [listing[i]];
    }
    assert numbered == listing;
    return Ok(SortByNumber(numbered));
  }

  /** Discovery succeeds exactly when every name keeps the convention, and then lists every file once,
      in ascending number. */
  lemma DiscoveryOrders(listing: seq<File>)
    ensures Discovered(listing).Ok? <==> forall f | f in listing :: Numbered(f)
    ensures Discovered(listing).Ok? ==>
              multiset(Discovered(listing).value) == multiset(listing) && Ascending(Discovered(listing).value)
  {
    hide SortByNumber, NumberOf, Ascending, Number;
    SortSorts(listing);
    var n := NumberedPrefix(listing);
    if n < |listing| {
      assert listing[n] in listing;
    }
  }

  // ---- the listing order ----

  predicate OnceEach(listing: seq<File>) {
    forall i, j | 0 <= i < j < |listing| :: listing[i] != listing[j]
  }

  predicate DistinctNumbers(listing: seq<File>) {
    forall f, g | f in listing && g in listing && f != g :: Number(f) != Number(g)
  }

  lemma {:induction false} CountsSayOnceEach(listing: seq<File>)
    ensures OnceEach(listing) <==> forall f :: multiset(listing)[f] <= 1
  {
    if listing != [] {
      var front, last := listing[..|listing| - 1], listing[|listing| - 1];
      CountsSayOnceEach(front);
      assert listing == front + [last];
      if OnceEach(listing) {
        assert last !in front;
      } else if OnceEach(front) {
        assert last in front;
        assert multiset(listing)[last] > 1;
      } else {
        var f :| multiset(front)[f] > 1;
        assert multiset(listing)[f] > 1;
      }
    }
  }

  lemma {:induction false} OneOfItsNumber(s: seq<File>, f: File)
    requires f in s && OnceEach(s) && DistinctNumbers(s)
    ensures WithNumber(s, Number(f)) == [f]
  {
    hide Number;
    var front, last := s[..|s| - 1], s[|s| - 1];
    assert s == front + [last];
    if f == last {
      WithNumberHas(front, Number(f));
    } else {
      OneOfItsNumber(front, f);
    }
  }

  lemma SameOfEachNumber(listing: seq<File>, other: seq<File>, n: nat)
    requires (forall f :: f in listing <==> f in other) && OnceEach(listing) && OnceEach(other)
             && DistinctNumbers(listing)
    ensures WithNumber(listing, n) == WithNumber(other, n)
  {
    if f :| f in listing && Number(f) == n {
      OneOfItsNumber(listing, f);
      OneOfItsNumber(other, f);
    } else {
      hide WithNumber;
      WithNumberHas(listing, n);
      WithNumberHas(other, n);
    }
  }

  lemma SameFiles(a: seq<File>, b: seq<File>)
    requires multiset(a) == multiset(b)
    ensures forall f :: f in a <==> f in b
  {
    forall f ensures f in a <==> f in b {
      assert f in multiset(a) <==> f in multiset(b);
    }
  }

  lemma DistinctNumbersDecide(listing: seq<File>, other: seq<File>)
    requires multiset(listing) == multiset(other) && OnceEach(listing) && DistinctNumbers(listing)
    requires forall f | f in listing :: Numbered(f)
    ensures Discovered(other) == Discovered(listing)
  {
    hide WithNumber, SortByNumber, Number, Numbered, Ascending;
    CountsSayOnceEach(listing);
    CountsSayOnceEach(other);
    SameFiles(listing, other);
    DiscoveryOrders(listing);
    DiscoveryOrders(other);
    forall n ensures WithNumber(SortByNumber(listing), n) == WithNumber(SortByNumber(other), n) {
      SameOfEachNumber(listing, other, n);
      SortIsStable(listing, n);
      SortIsStable(other, n);
    }
    SortSorts(listing);
    SortSorts(other);
    OneStableSort(SortByNumber(listing), SortByNumber(other));
  }

  /** The first of a number in the listing is the first of it that is discovered. */
  lemma {:induction false} FirstOfNumber(s: seq<File>, i: nat)
    requires i < |s| && forall j | 0 <= j < i :: Number(s[j]) != Number(s[i])
    ensures WithNumber(s, Number(s[i])) != [] && WithNumber(s, Number(s[i]))[0] == s[i]
  {
    hide Number;
    var front, last := s[..|s| - 1], s[|s| - 1];
    if i == |s| - 1 {
      WithNumberHas(front, Number(last));
    } else {
      FirstOfNumber(front, i);
    }
  }

  lemma {:induction false} FirstIndex(listing: seq<File>, n: nat) returns (i: nat)
    requires exists f :: f in listing && Number(f) == n
    ensures i < |listing| && Number(listing[i]) == n
    ensures forall j | 0 <= j < i :: Number(listing[j]) != n
  {
    hide Number;
    if Number(listing[0]) == n {
      i := 0;
    } else {
      assert listing == [listing[0]] + listing[1..];
      i := FirstIndex(listing[1..], n);
      assert forall j | 0 <= j < i :: listing[1..][j] == listing[j + 1];
      i := i + 1;
    }
  }

  lemma MovedToFront(listing: seq<File>, j: nat)
    requires j < |listing|
    ensures multiset([listing[j]] + listing[..j] + listing[j + 1..]) == multiset(listing)
  {
    assert listing == listing[..j] + [listing[j]] + listing[j + 1..];
  }

  lemma DifferentFirsts(listing: seq<File>, other: seq<File>, i: nat)
    requires multiset(listing) == multiset(other) && forall f | f in listing :: Numbered(f)
    requires i < |listing| && forall k | 0 <= k < i :: Number(listing[k]) != Number(listing[i])
    requires other != [] && Number(other[0]) == Number(listing[i]) && other[0] != listing[i]
    ensures Discovered(other) != Discovered(listing)
  {
    hide Number, Numbered, WithNumber, SortByNumber, Ascending;
    FirstOfNumber(listing, i);
    FirstOfNumber(other, 0);
    SortIsStable(listing, Number(listing[i]));
    SortIsStable(other, Number(listing[i]));
    SameFiles(listing, other);
    DiscoveryOrders(listing);
    DiscoveryOrders(other);
  }

  /** A listing with two files of one number, and the same with the later of them moved to the front. */
  lemma SharedNumberLeavesItOpen(listing: seq<File>) returns (other: seq<File>)
    requires !DistinctNumbers(listing) && forall f | f in listing :: Numbered(f)
    ensures multiset(other) == multiset(listing) && Discovered(other) != Discovered(listing)
  {
    hide Number, Numbered, Discovered;
    var f, g :| f in listing && g in listing && f != g && Number(f) == Number(g);
    var n := Number(f);
    var i := FirstIndex(listing, n);
    var later := if listing[i] == g then f else g;
    var j :| 0 <= j < |listing| && listing[j] == later;
    other := [listing[j]] + listing[..j] + listing[j + 1..];
    MovedToFront(listing, j);
    DifferentFirsts(listing, other, i);
  }

  /** Discovery depends on the order in which the directory lists its files exactly when two of them
      share a number. */
  lemma ListingOrderDecidesExactlyWhen(listing: seq<File>)
    requires OnceEach(listing) && forall f | f in listing :: Numbered(f)
    ensures DistinctNumbers(listing) <==>
            forall other | multiset(other) == multiset(listing) :: Discovered(other) == Discovered(listing)
  {
    if DistinctNumbers(listing) {
      forall other | multiset(other) == multiset(listing) ensures Discovered(other) == Discovered(listing) {
        DistinctNumbersDecide(listing, other);
      }
    } else {
      var other := SharedNumberLeavesItOpen(listing);
    }
  }

  /** Two files numbered seven come out as the directory lists them, in either order. */
  lemma SevenTwice()
    ensures var a, b := File("007_a.sql", ""), File("007_b.sql", "");
            Discovered([a, b]) == Ok([a, b]) && Discovered([b, a]) == Ok([b, a])
  {
    assert "007_a.sql" == "007" + "_" + "a" + ".sql" && "007_b.sql" == "007" + "_" + "b" + ".sql";
    SpelledNumber("007_a.sql", "007", "a");
    SpelledNumber("007_b.sql", "007", "b");
    hide NumberOf, Value;
    StaysInOrder(File("007_a.sql", ""), File("007_b.sql", ""));
    StaysInOrder(File("007_b.sql", ""), File("007_a.sql", ""));
  }

  lemma StaysInOrder(a: File, b: File)
    requires Numbered(a) && Numbered(b) && Number(a) <= Number(b)
    ensures Discovered([a, b]) == Ok([a, b])
  {
    hide NumberOf, Number, NumberedPrefix, SortByNumber;
    DiscoveryOrders([a, b]);
    TwoSorted(a, b);
    assert forall f | f in [a, b] :: Numbered(f);
  }

  /** A file is numbered as its name is written, with or without a zero in front. */
  lemma NumberedAsWritten(n: nat, middle: string)
    requires '\n' !in middle
    ensures NumberOf(Decimal(n) + "_" + middle + ".sql") == Some(n)
    ensures NumberOf("0" + Decimal(n) + "_" + middle + ".sql") == Some(n)
  {
    ValueOfDecimal(n);
    LeadingZero(Decimal(n));
    hide Value, Decimal, NumberOf;
    SpelledNumber(Decimal(n) + "_" + middle + ".sql", Decimal(n), middle);
    SpelledNumber("0" + Decimal(n) + "_" + middle + ".sql", "0" + Decimal(n), middle);
  }

  lemma NinetyNineAndHundred()
    ensures Decimal(99) == "99" && Decimal(100) == "100"
  {
  }

  /** Discovery goes by number, not by text: 99 comes before 100 with and without a zero in front. */
  lemma NinetyNineFirst()
    ensures var nine, ninety, hundred := File("099_a.sql", ""), File("99_a.sql", ""), File("100_b.sql", "");
            && Discovered([hundred, nine]) == Ok([nine, hundred])
            && Discovered([hundred, ninety]) == Ok([ninety, hundred])
  {
    hide Decimal, NumberOf, Discovered;
    NinetyNineAndHundred();
    NumberedAsWritten(99, "a");
    NumberedAsWritten(100, "b");
    assert "0" + "99" + "_" + "a" + ".sql" == "099_a.sql" && "99" + "_" + "a" + ".sql" == "99_a.sql";
    assert "100" + "_" + "b" + ".sql" == "100_b.sql";
    Exchanged(File("100_b.sql", ""), File("099_a.sql", ""));
    Exchanged(File("100_b.sql", ""), File("99_a.sql", ""));
  }

  lemma TwoSorted(a: File, b: File)
    ensures SortByNumber([a, b]) == if Number(a) <= Number(b) then [a, b] else [b, a]
  {
    hide NumberOf, Number;
    assert [a, b][..1] == [a] && [a][..0] == [] && [] + [a] == [a] && [] + [b] == [b];
    assert [b] + [a] == [b, a] && [a] + [b] == [a, b];
    assert SortByNumber([]) == [] && SortByNumber([a]) == Insert([], a) == [a];
    assert SortByNumber([a, b]) == Insert([a], b);
    assert Insert([], b) == [b];
  }

  lemma Exchanged(a: File, b: File)
    requires Numbered(a) && Numbered(b) && Number(a) > Number(b)
    ensures Discovered([a, b]) == Ok([b, a])
  {
    hide NumberOf, Number, NumberedPrefix, SortByNumber;
    DiscoveryOrders([a, b]);
    TwoSorted(a, b);
    assert forall f | f in [a, b] :: Numbered(f);
  }
}
