/** The orientation a student is given from their six marks: a cascade of
    three rules tried in order, the first that holds deciding, with physics as
    the default when none holds.
 */
module Orientation {
  import opened Marks

  datatype Orientation = Mathematics | ComputerScience | Languages | Physics {
    /** The label the roster shows for this orientation. */
    function Name(): string {
      match this
      case Mathematics => "mathematics"
      case ComputerScience => "computer science"
      case Languages => "languages"
      case Physics => "physics"
    }
  }

  /** The largest of four marks. */
  function Max4(a: int, b: int, c: int, d: int): (m: int)
    ensures m >= a && m >= b && m >= c && m >= d
    ensures m == a || m == b || m == c || m == d
  {
    var ab := if a >= b then a else b;
    var cd := if c >= d then c else d;
    if ab >= cd then ab else cd
  }

  // The three rules, each stated mark by mark, independently of how the
  // classifier computes them.

  /** Mathematics and algebra each beat physics, English, Arabic and computer
      science outright. */
  predicate MathematicsLeads(r: Row) {
    r.mathematics > r.physics && r.mathematics > r.english &&
    r.mathematics > r.arabic && r.mathematics > r.computerScience &&
    r.algebra > r.physics && r.algebra > r.english &&
    r.algebra > r.arabic && r.algebra > r.computerScience
  }

  /** Computer science and algebra each beat physics, English, Arabic and
      mathematics outright. */
  predicate ComputerScienceLeads(r: Row) {
    r.computerScience > r.physics && r.computerScience > r.english &&
    r.computerScience > r.arabic && r.computerScience > r.mathematics &&
    r.algebra > r.physics && r.algebra > r.english &&
    r.algebra > r.arabic && r.algebra > r.mathematics
  }

  /** The mean of the two language marks is above the mean of the other four
      (physics, mathematics, computer science, algebra). */
  predicate LanguagesLead(r: Row) {
    (r.arabic + r.english) as real / 2.0 >
    (r.physics + r.mathematics + r.computerScience + r.algebra) as real / 4.0
  }

  /** The orientation of one row. */
  function Determine(r: Row): (o: Orientation)
    ensures o == Mathematics <==> MathematicsLeads(r)
    ensures o == ComputerScience <==> !MathematicsLeads(r) && ComputerScienceLeads(r)
    ensures o == Languages <==>
      !MathematicsLeads(r) && !ComputerScienceLeads(r) && LanguagesLead(r)
    ensures o == Physics <==>
      !MathematicsLeads(r) && !ComputerScienceLeads(r) && !LanguagesLead(r)
  {
    var rivalsOfMathematics := Max4(r.physics, r.english, r.arabic, r.computerScience);
    var rivalsOfComputerScience := Max4(r.physics, r.english, r.arabic, r.mathematics);
    if r.mathematics > rivalsOfMathematics && r.algebra > rivalsOfMathematics then
      Mathematics
    else if r.computerScience > rivalsOfComputerScience && r.algebra > rivalsOfComputerScience then
      ComputerScience
    else if 2 * (r.arabic + r.english) > r.physics + r.mathematics + r.computerScience + r.algebra then
      Languages
    else
      Physics
  }

  /** The comparison of means is the same as the cross-multiplied integer
      comparison the classifier makes. */
  lemma LanguagesLeadIff(r: Row)
    ensures LanguagesLead(r) <==>
      2 * (r.arabic + r.english) > r.physics + r.mathematics + r.computerScience + r.algebra
  {
  }

  /** The first two rules never both hold: one needs mathematics above
      computer science, the other computer science above mathematics. */
  lemma LeadsExclusive(r: Row)
    ensures !(MathematicsLeads(r) && ComputerScienceLeads(r))
  {
  }

  /** The rules overlap all the same: this row meets both the mathematics
      rule and the languages rule, and the cascade gives it mathematics. */
  lemma CascadeOrder()
    ensures MathematicsLeads(Row(1001, 0, 1000, 1000, 0, 1001))
    ensures LanguagesLead(Row(1001, 0, 1000, 1000, 0, 1001))
    ensures Determine(Row(1001, 0, 1000, 1000, 0, 1001)) == Mathematics
  {
  }

  /** Whenever the mathematics rule and the languages rule both hold, the
      first rule that holds decides: the row is labelled mathematics. */
  lemma CascadePriority(r: Row)
    requires MathematicsLeads(r) && LanguagesLead(r)
    ensures Determine(r) == Mathematics
  {
  }

  /** The four labels are different, so no two orientations read alike. */
  lemma NamesDistinct(o1: Orientation, o2: Orientation)
    ensures o1.Name() == o2.Name() ==> o1 == o2
  {
  }
}
