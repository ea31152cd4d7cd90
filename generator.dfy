/** The route-file generator: with the random (departure, route) draws given as
    input it is a deterministic serialiser that writes a fixed header, the vehicles
    sorted by departure and numbered in output order, and the closing tag. */
module Generator {
  import opened Wrappers

  /** One generated vehicle: its departure step and its route id. */
  datatype Car = Car(depart: int, route: string)

  /** What ends up in the file: all lines, or the lines written before randint
      raised ValueError. */
  datatype RouteOutput = Complete(lines: seq<string>) | Aborted(lines: seq<string>)

  /** The four route ids, in the order random.choice is offered them. */
  const Routes: seq<string> := ["NS", "SN", "EW", "WE"]

  /** The vehicle type and the four route definitions, written before any vehicle. */
  const Header: seq<string> := [
    "<routes>\n",
    "    <vType id=\"standard_car\" accel=\"0.8\" decel=\"4.5\" sigma=\"0.5\" length=\"5\" minGap=\"2.5\" maxSpeed=\"16.67\" guiShape=\"passenger\"/>\n",
    "    <route id=\"NS\" edges=\"n_to_c c_to_s\"/>\n",
    "    <route id=\"SN\" edges=\"s_to_c c_to_n\"/>\n",
    "    <route id=\"EW\" edges=\"e_to_c c_to_w\"/>\n",
    "    <route id=\"WE\" edges=\"w_to_c c_to_e\"/>\n"
  ]

  /** The closing tag, written without a trailing newline. */
  const Footer: string := "</routes>"

  /** The first loop's randint(0, max_steps - 50) has an empty range. */
  predicate Raises(maxSteps: int, nCars: nat)
  {
    nCars > 0 && maxSteps - 50 < 0
  }

  /** What the second loop's draws can be: n_cars pairs, each departure from
      randint(0, max_steps) and each route from random.choice(Routes). */
  predicate DrawsFit(draws: seq<Car>, maxSteps: int, nCars: nat)
  {
    |draws| == nCars && forall c :: c in draws ==> 0 <= c.depart <= maxSteps && c.route in Routes
  }

  // ---------------------------------------------------------------------------
  // Python's ordering of (int, str) tuples

  /** Python's str comparison a <= b: lexicographic by code point. */
  predicate StrLe(a: string, b: string)
  {
    if a == [] then true
    else if b == [] then false
    else if a[0] != b[0] then a[0] < b[0]
    else StrLe(a[1..], b[1..])
  }

  /** Tuple comparison: by departure, ties by route id. */
  predicate CarLe(x: Car, y: Car)
  {
    x.depart < y.depart || (x.depart == y.depart && StrLe(x.route, y.route))
  }

  predicate Sorted(cars: seq<Car>)
  {
    forall i, j :: 0 <= i < j < |cars| ==> CarLe(cars[i], cars[j])
  }

  lemma {:induction false} StrLeReflexive(a: string)
    ensures StrLe(a, a)
  {
    if a != [] {
      StrLeReflexive(a[1..]);
    }
  }

  lemma {:induction false} StrLeTotal(a: string, b: string)
    ensures StrLe(a, b) || StrLe(b, a)
  {
    if a != [] && b != [] && a[0] == b[0] {
      StrLeTotal(a[1..], b[1..]);
    }
  }

  lemma {:induction false} StrLeAntisymmetric(a: string, b: string)
    requires StrLe(a, b) && StrLe(b, a)
    ensures a == b
  {
    if a != [] && b != [] {
      StrLeAntisymmetric(a[1..], b[1..]);
      assert a == [a[0]] + a[1..] && b == [b[0]] + b[1..];
    }
  }

  lemma {:induction false} StrLeTransitive(a: string, b: string, c: string)
    requires StrLe(a, b) && StrLe(b, c)
    ensures StrLe(a, c)
  {
    if a != [] && b != [] && c != [] && a[0] == b[0] && b[0] == c[0] {
      StrLeTransitive(a[1..], b[1..], c[1..]);
    }
  }

  lemma CarLeTotal(x: Car, y: Car)
    ensures CarLe(x, y) || CarLe(y, x)
  {
    StrLeTotal(x.route, y.route);
  }

  lemma CarLeAntisymmetric(x: Car, y: Car)
    requires CarLe(x, y) && CarLe(y, x)
    ensures x == y
  {
    StrLeAntisymmetric(x.route, y.route);
  }

  lemma CarLeTransitive(x: Car, y: Car, z: Car)
    requires CarLe(x, y) && CarLe(y, z)
    ensures CarLe(x, z)
  {
    if x.depart == y.depart == z.depart {
      StrLeTransitive(x.route, y.route, z.route);
    }
  }

  // ---------------------------------------------------------------------------
  // cars.sort()

  /** A car no greater than every element of a sorted list can go in front of it. */
  lemma SortedCons(h: Car, t: seq<Car>)
    requires Sorted(t)
    requires forall x :: x in t ==> CarLe(h, x)
    ensures Sorted([h] + t)
  {
    var s := [h] + t;
    forall i, j | 0 <= i < j < |s| ensures CarLe(s[i], s[j]) {
      if i == 0 {
        assert s[j] == t[j - 1];
      } else {
        assert s[i] == t[i - 1] && s[j] == t[j - 1];
      }
    }
  }

  /** Insertion of one car into a sorted list. */
  function Insert(c: Car, s: seq<Car>): (r: seq<Car>)
    requires Sorted(s)
    ensures Sorted(r)
    ensures multiset(r) == multiset(s) + multiset{c}
  {
    if s == [] then [c]
    else if CarLe(c, s[0]) then
      assert forall x :: x in s ==> CarLe(c, x) by {
        forall x | x in s ensures CarLe(c, x) {
          var j :| 0 <= j < |s| && s[j] == x;
          if j > 0 { CarLeTransitive(c, s[0], x); }
        }
      }
      SortedCons(c, s);
      [c] + s
    else
      var rest := Insert(c, s[1..]);
      assert forall x :: x in rest ==> CarLe(s[0], x) by {
        forall x | x in rest ensures CarLe(s[0], x) {
          assert x in multiset(rest);
          if x == c {
            CarLeTotal(c, s[0]);
          } else {
            assert x in multiset(s[1..]);
            var j :| 0 <= j < |s[1..]| && s[1..][j] == x;
            assert s[j + 1] == x;
          }
        }
      }
      SortedCons(s[0], rest);
      assert s == [s[0]] + s[1..];
      [s[0]] + rest
  }

  /** The sorted list cars.sort() leaves: ordered and a permutation of its input. */
  function SortCars(cars: seq<Car>): (r: seq<Car>)
    ensures Sorted(r)
    ensures multiset(r) == multiset(cars)
  {
    if cars == [] then []
    else
      assert cars == [cars[0]] + cars[1..];
      Insert(cars[0], SortCars(cars[1..]))
  }

  /** The head of a sorted list is below all its elements. */
  lemma SortedHeadLe(a: seq<Car>, x: Car)
    requires Sorted(a) && x in a
    ensures CarLe(a[0], x)
  {
    var i :| 0 <= i < |a| && a[i] == x;
    if i == 0 {
      StrLeReflexive(x.route);
    }
  }

  lemma SortedTail(a: seq<Car>)
    requires Sorted(a) && a != []
    ensures Sorted(a[1..])
  {
    forall i, j | 0 <= i < j < |a| - 1 ensures CarLe(a[1..][i], a[1..][j]) {
      assert a[1..][i] == a[i + 1] && a[1..][j] == a[j + 1];
    }
  }

  /** Two sorted lists with the same elements start with the same car. */
  lemma SortedHeadsEqual(a: seq<Car>, b: seq<Car>)
    requires Sorted(a) && Sorted(b) && a != [] && b != []
    requires multiset(a) == multiset(b)
    ensures a[0] == b[0]
  {
    assert a[0] in multiset(b) && b[0] in multiset(a);
    SortedHeadLe(a, b[0]);
    SortedHeadLe(b, a[0]);
    CarLeAntisymmetric(a[0], b[0]);
  }

  /** The order is total, so there is exactly one sorted permutation: whatever
      algorithm list.sort uses, its result is SortCars. */
  lemma {:induction false} SortedPermutationUnique(a: seq<Car>, b: seq<Car>)
    requires Sorted(a) && Sorted(b)
    requires multiset(a) == multiset(b)
    ensures a == b
  {
    if a == [] {
      assert |b| == |multiset(b)| == 0;
    } else {
      assert b != [] by {
        assert a[0] in multiset(b);
      }
      SortedHeadsEqual(a, b);
      assert multiset(a[1..]) == multiset(b[1..]) by {
        assert a == [a[0]] + a[1..] && b == [b[0]] + b[1..];
        assert multiset(a[1..]) == multiset(a) - multiset{a[0]};
        assert multiset(b[1..]) == multiset(b) - multiset{b[0]};
      }
      SortedTail(a);
      SortedTail(b);
      SortedPermutationUnique(a[1..], b[1..]);
      assert a == [a[0]] + a[1..] && b == [b[0]] + b[1..];
    }
  }

  /** The sorted cars are the drawn cars, so every emitted departure lies in
      [0, max_steps] and every route is one of the four. */
  lemma SortedCarsFit(draws: seq<Car>, maxSteps: int, nCars: nat)
    requires DrawsFit(draws, maxSteps, nCars)
    ensures DrawsFit(SortCars(draws), maxSteps, nCars)
  {
    var r := SortCars(draws);
    assert |r| == |multiset(r)| == |multiset(draws)| == nCars;
    forall c | c in r ensures 0 <= c.depart <= maxSteps && c.route in Routes {
      assert c in multiset(r);
    }
  }

  // ---------------------------------------------------------------------------
  // Rendering numbers and vehicle lines

  predicate IsDigit(c: char)
  {
    '0' <= c <= '9'
  }

  predicate AllDigits(s: string)
  {
    forall i :: 0 <= i < |s| ==> IsDigit(s[i])
  }

  function Digit(d: nat): (c: char)
    requires d < 10
    ensures IsDigit(c)
  {
    "0123456789"[d]
  }

  function DigitValue(c: char): nat
    requires IsDigit(c)
  {
    (c as int) - ('0' as int)
  }

  /** Python's str() of a non-negative int: decimal digits, no leading zeros. */
  function Dec(n: nat): (s: string)
    ensures |s| > 0 && AllDigits(s)
    ensures s[0] == '0' <==> n == 0
  {
    if n < 10 then
      assert "0123456789"[0] == '0' && '0' !in "0123456789"[1..];
      [Digit(n)]
    else
      Dec(n / 10) + [Digit(n % 10)]
  }

  /** Python's str() of an int. */
  function Str(n: int): string
  {
    if n < 0 then "-" + Dec(-n) else Dec(n)
  }

  /** Reads decimal digits back as a number. */
  function ParseDec(s: string): nat
    requires AllDigits(s)
  {
    if s == [] then 0 else 10 * ParseDec(s[..|s| - 1]) + DigitValue(s[|s| - 1])
  }

  lemma {:induction false} DecRoundTrip(n: nat)
    ensures ParseDec(Dec(n)) == n
  {
    if n >= 10 {
      DecRoundTrip(n / 10);
      var s := Dec(n);
      assert s[..|s| - 1] == Dec(n / 10);
    }
    var d := n % 10;
    assert DigitValue(Digit(d)) == d by {
      assert "0123456789"[0] == '0' && "0123456789"[1] == '1' && "0123456789"[2] == '2'
          && "0123456789"[3] == '3' && "0123456789"[4] == '4' && "0123456789"[5] == '5'
          && "0123456789"[6] == '6' && "0123456789"[7] == '7' && "0123456789"[8] == '8'
          && "0123456789"[9] == '9';
    }
  }

  /** The vehicle lines for cars numbered from 0 in list order. */
  function VehicleLines(cars: seq<Car>): (lines: seq<string>)
    ensures |lines| == |cars|
    ensures forall i :: 0 <= i < |cars| ==> lines[i] == VehicleLine(i, cars[i])
  {
    seq(|cars|, i requires 0 <= i < |cars| => VehicleLine(i, cars[i]))
  }

  // ---------------------------------------------------------------------------
  // Reading a vehicle line back

  /** Splits a string at every occurrence of `sep`, as str.split(sep). */
  function Split(s: string, sep: char): (parts: seq<string>)
    ensures |parts| >= 1
  {
    if s == [] then [[]]
    else
      var rest := Split(s[1..], sep);
      if s[0] == sep then [[]] + rest else [[s[0]] + rest[0]] + rest[1..]
  }

  /** Joins non-empty lists of parts with `sep`, as sep.join(parts). */
  function Join(parts: seq<string>, sep: char): string
    requires |parts| >= 1
  {
    if |parts| == 1 then parts[0] else parts[0] + [sep] + Join(parts[1..], sep)
  }

  lemma {:induction false} SplitPrefix(a: string, b: string, sep: char)
    requires sep !in a
    ensures Split(a + b, sep) == [a + Split(b, sep)[0]] + Split(b, sep)[1..]
  {
    if a != [] {
      assert (a + b)[1..] == a[1..] + b;
      SplitPrefix(a[1..], b, sep);
      assert [a[0]] + (a[1..] + Split(b, sep)[0]) == a + Split(b, sep)[0];
    } else {
      assert a + b == b;
      var r := Split(b, sep);
      assert r == [r[0]] + r[1..];
      assert a + r[0] == r[0];
    }
  }

  lemma {:induction false} SplitJoin(parts: seq<string>, sep: char)
    requires |parts| >= 1
    requires forall p :: p in parts ==> sep !in p
    ensures Split(Join(parts, sep), sep) == parts
  {
    if |parts| == 1 {
      SplitPrefix(parts[0], [], sep);
      assert parts[0] + [] == parts[0];
    } else {
      var rest := Join(parts[1..], sep);
      assert forall p :: p in parts[1..] ==> p in parts;
      SplitJoin(parts[1..], sep);
      assert ([sep] + rest)[1..] == rest;
      assert Split([sep] + rest, sep) == [[]] + parts[1..];
      assert parts[0] + [sep] + rest == parts[0] + ([sep] + rest);
      SplitPrefix(parts[0], [sep] + rest, sep);
      assert parts[0] + [] == parts[0];
      assert parts == [parts[0]] + parts[1..];
    }
  }

  /** The pieces of the vehicle line's f-string that lie between its double quotes. */
  function VehicleFields(i: nat, c: Car): seq<string>
  {
    ["    <vehicle id=", "veh" + Str(i), " type=", "standard_car", " route=", c.route,
     " depart=", Str(c.depart), " />\n"]
  }

  /** The line written for the i-th vehicle in output order:
      `    <vehicle id="veh{i}" type="standard_car" route="{route}" depart="{depart}" />` and a newline. */
  function VehicleLine(i: nat, c: Car): string
  {
    Join(VehicleFields(i, c), '"')
  }

  /** Reads the pieces of a vehicle line between its quotes: the vehicle number
      (after "veh"), the route and the departure. */
  function ParseFields(f: seq<string>): Option<(int, Car)>
  {
    if |f| == 9 && f[0] == "    <vehicle id=" && |f[1]| > 3 && f[1][..3] == "veh" && AllDigits(f[1][3..])
       && f[2] == " type=" && f[3] == "standard_car" && f[4] == " route=" && f[6] == " depart="
       && AllDigits(f[7]) && f[8] == " />\n"
    then Some((ParseDec(f[1][3..]), Car(ParseDec(f[7]), f[5])))
    else None
  }

  /** Reads a vehicle line: its number, its route and its departure. */
  function ParseVehicle(line: string): Option<(int, Car)>
  {
    ParseFields(Split(line, '"'))
  }

  /** The pieces written for a car with a non-negative departure read back as its
      number and the car. */
  lemma FieldsRoundTrip(i: nat, c: Car)
    requires c.depart >= 0
    ensures ParseFields(VehicleFields(i, c)) == Some((i, c))
  {
    var f := VehicleFields(i, c);
    assert f[1][..3] == "veh" && f[1][3..] == Dec(i);
    DecRoundTrip(i);
    DecRoundTrip(c.depart);
  }

  /** No piece of a vehicle line holds a quote when its route holds none. */
  lemma FieldsUnquoted(i: nat, c: Car)
    requires c.depart >= 0
    requires '"' !in c.route
    ensures forall p :: p in VehicleFields(i, c) ==> '"' !in p
  {
    assert '"' !in Dec(i) && '"' !in Dec(c.depart);
  }

  /** Every vehicle line reads back as the vehicle number and car it was written for. */
  lemma VehicleLineRoundTrip(i: nat, c: Car)
    requires c.depart >= 0
    requires '"' !in c.route
    ensures ParseVehicle(VehicleLine(i, c)) == Some((i, c))
  {
    FieldsUnquoted(i, c);
    SplitJoin(VehicleFields(i, c), '"');
    FieldsRoundTrip(i, c);
  }

  /** The file for a sorted car list: header, one line per car numbered from 0, the
      closing tag. */
  function RouteFile(cars: seq<Car>): (lines: seq<string>)
    ensures |lines| == |cars| + 7
  {
    Header + VehicleLines(cars) + [Footer]
  }

  /** The file opens with the six header lines and closes with the closing tag. */
  lemma RouteFileFrame(cars: seq<Car>)
    ensures RouteFile(cars)[..6] == Header
    ensures RouteFile(cars)[|cars| + 6] == Footer
  {
    var v := VehicleLines(cars);
    assert (Header + v + [Footer])[..6] == Header;
  }

  /** Line 6 + i of the file reads back as vehicle number i and car i, for any car
      whose departure is a non-negative integer and whose route has no quote. */
  lemma RouteFileReadsBack(cars: seq<Car>, i: int)
    requires 0 <= i < |cars|
    requires cars[i].depart >= 0 && '"' !in cars[i].route
    ensures ParseVehicle(RouteFile(cars)[6 + i]) == Some((i, cars[i]))
  {
    var v := VehicleLines(cars);
    assert (Header + v + [Footer])[6 + i] == v[i];
    VehicleLineRoundTrip(i, cars[i]);
  }

  /** No route id contains a double quote. */
  lemma RouteUnquoted(r: string)
    requires r in Routes
    ensures '"' !in r
  {
    assert r == "NS" || r == "SN" || r == "EW" || r == "WE";
    assert forall k :: 0 <= k < |r| ==> r[k] in "NSEW";
  }

  /** For draws the random source can produce, the file for the sorted cars holds
      exactly nCars vehicle lines; the i-th reads back as vehicle veh{i}, with a
      departure in [0, max_steps] and one of the four routes, in sorted order. */
  lemma GeneratedVehicles(draws: seq<Car>, maxSteps: int, nCars: nat)
    requires DrawsFit(draws, maxSteps, nCars)
    ensures var cars, lines := SortCars(draws), RouteFile(SortCars(draws));
      && |lines| == nCars + 7
      && (forall i :: 0 <= i < nCars ==>
            && ParseVehicle(lines[6 + i]) == Some((i, cars[i]))
            && 0 <= cars[i].depart <= maxSteps && cars[i].route in Routes)
      && (forall i, j :: 0 <= i < j < nCars ==> CarLe(cars[i], cars[j]))
  {
    var cars := SortCars(draws);
    SortedCarsFit(draws, maxSteps, nCars);
    forall i | 0 <= i < nCars ensures ParseVehicle(RouteFile(cars)[6 + i]) == Some((i, cars[i])) {
      assert cars[i] in cars;
      RouteUnquoted(cars[i].route);
      RouteFileReadsBack(cars, i);
    }
  }

  // ---------------------------------------------------------------------------
  // generate_route_file

  /** The enumerate loop that writes one line per car, numbering from 0. */
  method WriteVehicles(cars: seq<Car>) returns (lines: seq<string>)
    ensures lines == VehicleLines(cars)
  {
    ghost var all := VehicleLines(cars);
    lines := [];
    var k := 0;
    while k < |cars|
      invariant 0 <= k <= |cars|
      invariant lines == all[..k]
    {
      assert all[..k + 1] == all[..k] + [VehicleLine(k, cars[k])];
      lines := lines + [VehicleLine(k, cars[k])];
      k := k + 1;
    }
    assert all[..k] == all;
  }

  /** Writes the route file for `nCars` vehicles. The random draws of the second
      loop are `draws`; the first loop's draws are discarded by the source, so they
      only matter through the ValueError its randint raises when max_steps < 50. */
  method GenerateRouteFile(maxSteps: int, nCars: nat, draws: seq<Car>) returns (out: RouteOutput)
    requires !Raises(maxSteps, nCars) ==> DrawsFit(draws, maxSteps, nCars)
    ensures Raises(maxSteps, nCars) ==> out == Aborted(Header)
    ensures !Raises(maxSteps, nCars) ==> out == Complete(RouteFile(SortCars(draws)))
  {
    var lines := Header;
    if Raises(maxSteps, nCars) {
      return Aborted(lines);
    }
    var cars: seq<Car> := [];
    var i := 0;
    while i < nCars
      invariant 0 <= i <= nCars
      invariant cars == draws[..i]
    {
      cars := cars + [draws[i]];
      i := i + 1;
    }
    assert cars == draws;
    cars := SortCars(cars);
    var vehicles := WriteVehicles(cars);
    lines := lines + vehicles;
    lines := lines + [Footer];
    out := Complete(lines);
  }
}
