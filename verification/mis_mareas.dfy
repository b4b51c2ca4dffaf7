/**
 * The list screen's date text: a weekday/day/month/year line and an
 * hour:minute line, assembled from the calendar fields of a stored `fecha`.
 * The fields arrive as integers; parsing the ISO string is not modelled.
 * Each line is paired with a decoder, and formatting then decoding gives the
 * fields back.
 */
module MisMareas {
  import opened Wrappers

  /** Weekday names, indexed from Sunday (0). */
  const DiasSemana: seq<string> := ["Domingo", "Lunes", "Martes", "Miércoles", "Jueves", "Viernes", "Sábado"]

  /** Month names, indexed from January (0). */
  const Meses: seq<string> :=
    ["enero", "febrero", "marzo", "abril", "mayo", "junio",
     "julio", "agosto", "septiembre", "octubre", "noviembre", "diciembre"]

  /** The two lines shown under a composition's name. */
  datatype FechaTexto = FechaTexto(diaTexto: string, horaTexto: string)

  predicate IsDigit(c: char)
  {
    '0' <= c <= '9'
  }

  predicate AllDigits(s: string)
  {
    forall i :: 0 <= i < |s| ==> IsDigit(s[i])
  }

  function DigitChar(d: nat): (c: char)
    requires d < 10
    ensures IsDigit(c) && c as int - '0' as int == d
  {
    ('0' as int + d) as char
  }

  /** `String(n)` for a non-negative integer: decimal digits, no leading zero. */
  function NatToString(n: nat): (r: string)
    ensures r != [] && AllDigits(r)
    ensures |r| > 1 ==> r[0] != '0'
    ensures n < 10 <==> |r| == 1
  {
    if n < 10 then [DigitChar(n)] else NatToString(n / 10) + [DigitChar(n % 10)]
  }

  /** `String(n)` for any integer: a minus sign before negative values. */
  function IntToString(n: int): string
  {
    if n < 0 then "-" + NatToString(-n) else NatToString(n)
  }

  /** `padStart(2, "0")`: strings shorter than two characters get leading zeros. */
  function PadStart2(s: string): (r: string)
    ensures |s| < 2 ==> |r| == 2 && r[2 - |s|..] == s && forall i :: 0 <= i < 2 - |s| ==> r[i] == '0'
    ensures |s| >= 2 ==> r == s
  {
    if |s| >= 2 then s else seq(2 - |s|, _ => '0') + s
  }

  /** formatFecha: the two lines for the given calendar fields (weekday and month indexed from 0). */
  function FormatFecha(diaSemana: nat, dia: nat, mes: nat, anio: int, horas: nat, minutos: nat): FechaTexto
    requires diaSemana < |DiasSemana| && mes < |Meses|
  {
    FechaTexto(
      DiasSemana[diaSemana] + " " + NatToString(dia) + " de " + Meses[mes] + " del " + IntToString(anio),
      PadStart2(NatToString(horas)) + ":" + PadStart2(NatToString(minutos)) + " horas.")
  }

  // ---------------------------------------------------------------------------
  // Decoding

  /** The value of a string of decimal digits ("" reads as 0). */
  function ParseNat(s: string): nat
    requires AllDigits(s)
  {
    if s == [] then 0 else ParseNat(s[..|s| - 1]) * 10 + (s[|s| - 1] as int - '0' as int)
  }

  /** Reading back a number's decimal text gives the number. */
  lemma {:induction false} ParseNatToString(n: nat)
    ensures ParseNat(NatToString(n)) == n
  {
    if n >= 10 {
      var s := NatToString(n);
      assert s[..|s| - 1] == NatToString(n / 10);
      ParseNatToString(n / 10);
    }
  }

  /** Leading zeros do not change a digit string's value. */
  lemma {:induction false} ParseNatLeadingZero(s: string)
    requires AllDigits(s)
    ensures AllDigits("0" + s) && ParseNat("0" + s) == ParseNat(s)
  {
    if s != [] {
      assert ("0" + s)[..|"0" + s| - 1] == "0" + s[..|s| - 1];
      ParseNatLeadingZero(s[..|s| - 1]);
    }
  }

  /** Text of a possibly negative integer: an optional minus sign, then at least one digit. */
  predicate IsIntText(s: string)
  {
    if s != [] && s[0] == '-' then |s| > 1 && AllDigits(s[1..]) else s != [] && AllDigits(s)
  }

  function ParseInt(s: string): int
    requires IsIntText(s)
  {
    if s[0] == '-' then 0 - ParseNat(s[1..]) as int else ParseNat(s)
  }

  lemma ParseIntToString(n: int)
    ensures IsIntText(IntToString(n)) && ParseInt(IntToString(n)) == n
  {
    var s := IntToString(n);
    if n < 0 {
      var t := NatToString(-n);
      assert s == "-" + t && s[0] == '-' && s[1..] == t;
      ParseNatToString(-n);
    } else {
      var t := NatToString(n);
      assert s == t && IsDigit(t[0]);
      ParseNatToString(n);
    }
  }

  /** A number below 100, zero-padded: exactly two digits that read back as the number. */
  lemma TwoDigits(n: nat)
    requires n < 100
    ensures |PadStart2(NatToString(n))| == 2
    ensures AllDigits(PadStart2(NatToString(n)))
    ensures ParseNat(PadStart2(NatToString(n))) == n
  {
    ParseNatToString(n);
    var s := NatToString(n);
    if n < 10 {
      assert PadStart2(s) == "0" + s;
      ParseNatLeadingZero(s);
    } else {
      assert |NatToString(n / 10)| == 1;
    }
  }

  /**
   * The decoder's tokenizer: the pieces of `s` between single spaces. It
   * belongs to the reading side of the date-line round trip.
   */
  function SplitSpaces(s: string): (r: seq<string>)
    ensures |r| >= 1
  {
    if s == [] then [""]
    else
      var rest := SplitSpaces(s[1..]);
      if s[0] == ' ' then [""] + rest else [[s[0]] + rest[0]] + rest[1..]
  }

  /** A space-free word followed by a space and more text splits off as the first piece. */
  lemma {:induction false} SplitWord(w: string, rest: string)
    requires ' ' !in w
    ensures SplitSpaces(w + " " + rest) == [w] + SplitSpaces(rest)
  {
    if w != [] {
      var s := w + " " + rest;
      assert s[0] == w[0] && w[0] != ' ';
      assert s[1..] == w[1..] + " " + rest;
      SplitWord(w[1..], rest);
      assert [w[0]] + w[1..] == w;
    } else {
      assert ("" + " " + rest)[1..] == rest;
    }
  }

  /** A space-free word splits into itself alone. */
  lemma {:induction false} SplitSingle(w: string)
    requires ' ' !in w
    ensures SplitSpaces(w) == [w]
  {
    if w != [] {
      SplitSingle(w[1..]);
      assert [w[0]] + w[1..] == w;
    }
  }

  /** The position of `name` in `table`, if it is there. */
  function IndexOf(table: seq<string>, name: string): (r: Option<nat>)
    ensures r.Some? ==> r.value < |table| && table[r.value] == name
    ensures r.None? ==> name !in table
  {
    if table == [] then None
    else if table[0] == name then Some(0)
    else match IndexOf(table[1..], name)
      case None => None
      case Some(i) => Some(i + 1)
  }

  /** No name occurs twice in the table and none contains a space. */
  predicate WordTable(table: seq<string>)
  {
    (forall i, j :: 0 <= i < j < |table| ==> table[i] != table[j])
    && (forall i :: 0 <= i < |table| ==> ' ' !in table[i])
  }

  /** Weekday names differ in their first letter or their length. */
  lemma DiasSemanaDistinct()
    ensures forall i, j :: 0 <= i < j < |DiasSemana| ==> DiasSemana[i] != DiasSemana[j]
  {
    forall i, j | 0 <= i < j < |DiasSemana| ensures DiasSemana[i] != DiasSemana[j] {
      assert DiasSemana[i][0] != DiasSemana[j][0] || |DiasSemana[i]| != |DiasSemana[j]|;
    }
  }

  /** Month names differ in their first or third letter. */
  lemma MesesDistinct()
    ensures forall i, j :: 0 <= i < j < |Meses| ==> Meses[i] != Meses[j]
  {
    forall i, j | 0 <= i < j < |Meses| ensures Meses[i] != Meses[j] {
      assert Meses[i][0] != Meses[j][0] || Meses[i][2] != Meses[j][2];
    }
  }

  /** No weekday name contains a space. */
  lemma DiasSemanaNoSpace()
    ensures forall i :: 0 <= i < |DiasSemana| ==> ' ' !in DiasSemana[i]
  {
    forall i | 0 <= i < |DiasSemana| ensures ' ' !in DiasSemana[i] {
      var w := DiasSemana[i];
      assert forall k :: 0 <= k < |w| ==> w[k] != ' ';
    }
  }

  /** No month name contains a space. */
  lemma MesesNoSpace()
    ensures forall i :: 0 <= i < |Meses| ==> ' ' !in Meses[i]
  {
    forall i | 0 <= i < |Meses| ensures ' ' !in Meses[i] {
      var w := Meses[i];
      assert forall k :: 0 <= k < |w| ==> w[k] != ' ';
    }
  }

  lemma TablesAreWordTables()
    ensures WordTable(DiasSemana) && WordTable(Meses)
  {
    DiasSemanaDistinct();
    MesesDistinct();
    DiasSemanaNoSpace();
    MesesNoSpace();
  }

  lemma IndexOfWordTable(table: seq<string>, k: nat)
    requires WordTable(table) && k < |table|
    ensures IndexOf(table, table[k]) == Some(k)
  {
    var r := IndexOf(table, table[k]);
    assert r.Some?;
  }

  /** The weekday, day, month and year a date line names. */
  datatype Dia = Dia(diaSemana: nat, dia: nat, mes: nat, anio: int)

  /** Reads a date line back: "<weekday> <day> de <month> del <year>". */
  function ParseDiaTexto(s: string): Option<Dia>
  {
    ParseDiaWords(SplitSpaces(s))
  }

  /** Reads the six words of a date line. */
  function ParseDiaWords(t: seq<string>): Option<Dia>
  {
    if |t| != 6 || t[2] != "de" || t[4] != "del" || !AllDigits(t[1]) || !IsIntText(t[5]) then None
    else match (IndexOf(DiasSemana, t[0]), IndexOf(Meses, t[3]))
      case (Some(w), Some(m)) => Some(Dia(w, ParseNat(t[1]), m, ParseInt(t[5])))
      case _ => None
  }

  /** Decimal text, signed or not, holds no space. */
  lemma NoSpaceInNumbers(n: int)
    ensures ' ' !in IntToString(n)
    ensures n >= 0 ==> ' ' !in NatToString(n)
  {
    var t := NatToString(if n < 0 then -n else n);
    assert forall i :: 0 <= i < |t| ==> IsDigit(t[i]);
    assert IntToString(n) == (if n < 0 then "-" else "") + t;
  }

  /** The date line splits into its six words. */
  lemma SplitDiaTexto(w: string, d: string, m: string, y: string)
    requires ' ' !in w && ' ' !in d && ' ' !in m && ' ' !in y
    ensures SplitSpaces(w + " " + d + " de " + m + " del " + y) == [w, d, "de", m, "del", y]
  {
    var s := w + " " + d + " de " + m + " del " + y;
    var s4 := "del" + " " + y;
    var s3 := m + " " + s4;
    var s2 := "de" + " " + s3;
    var s1 := d + " " + s2;
    assert s == w + " " + s1;
    SplitSingle(y);
    SplitWord("del", y);
    SplitWord(m, s4);
    SplitWord("de", s3);
    SplitWord(d, s2);
    SplitWord(w, s1);
  }

  /** Formatting the date line, then reading it back, gives the weekday, day, month and year. */
  lemma DiaTextoRoundTrip(diaSemana: nat, dia: nat, mes: nat, anio: int, horas: nat, minutos: nat)
    requires diaSemana < |DiasSemana| && mes < |Meses|
    ensures ParseDiaTexto(FormatFecha(diaSemana, dia, mes, anio, horas, minutos).diaTexto)
         == Some(Dia(diaSemana, dia, mes, anio))
  {
    TablesAreWordTables();
    var w, d, m, y := DiasSemana[diaSemana], NatToString(dia), Meses[mes], IntToString(anio);
    NoSpaceInNumbers(dia);
    NoSpaceInNumbers(anio);
    SplitDiaTexto(w, d, m, y);
    DiaWordsRoundTrip(diaSemana, dia, mes, anio);
  }

  /** The six words of a formatted date line read back as its fields. */
  lemma DiaWordsRoundTrip(diaSemana: nat, dia: nat, mes: nat, anio: int)
    requires diaSemana < |DiasSemana| && mes < |Meses|
    ensures ParseDiaWords([DiasSemana[diaSemana], NatToString(dia), "de", Meses[mes], "del", IntToString(anio)])
         == Some(Dia(diaSemana, dia, mes, anio))
  {
    TablesAreWordTables();
    IndexOfWordTable(DiasSemana, diaSemana);
    IndexOfWordTable(Meses, mes);
    ParseNatToString(dia);
    ParseIntToString(anio);
  }

  /** Reads an hour line back: "<HH>:<MM> horas.". */
  function ParseHoraTexto(s: string): Option<(nat, nat)>
  {
    if |s| == 12 && s[2] == ':' && s[5..] == " horas." && AllDigits(s[..2]) && AllDigits(s[3..5])
    then Some((ParseNat(s[..2]), ParseNat(s[3..5])))
    else None
  }

  /**
   * For any hour and minute below 100 (a clock gives 0..23 and 0..59) the hour
   * line is 12 characters long and reads back as the same hour and minute.
   */
  lemma HoraTextoRoundTrip(diaSemana: nat, dia: nat, mes: nat, anio: int, horas: nat, minutos: nat)
    requires diaSemana < |DiasSemana| && mes < |Meses|
    requires horas < 100 && minutos < 100
    ensures |FormatFecha(diaSemana, dia, mes, anio, horas, minutos).horaTexto| == 12
    ensures ParseHoraTexto(FormatFecha(diaSemana, dia, mes, anio, horas, minutos).horaTexto) == Some((horas, minutos))
  {
    TwoDigits(horas);
    TwoDigits(minutos);
    var hh, mm := PadStart2(NatToString(horas)), PadStart2(NatToString(minutos));
    assert |hh| == 2 && |mm| == 2;
    HoraLineReadsBack(hh, mm);
  }

  /** Any two two-digit fields, joined as an hour line, read back as their values. */
  lemma HoraLineReadsBack(hh: string, mm: string)
    requires |hh| == 2 && |mm| == 2 && AllDigits(hh) && AllDigits(mm)
    ensures |hh + ":" + mm + " horas."| == 12
    ensures ParseHoraTexto(hh + ":" + mm + " horas.") == Some((ParseNat(hh), ParseNat(mm)))
  {
    var s := hh + ":" + mm + " horas.";
    assert s[..2] == hh && s[3..5] == mm && s[2] == ':' && s[5..] == " horas.";
  }
}
