/** The trivia question records, the built-in catalog and the round length derived from it. */
module Questions {

  /** A trivia question; by convention its first answer is the correct one. */
  datatype Question = Question(text: string, answers: seq<string>)

  /** Every question offers this many answers, one per radio button. */
  const AnswerCount: nat := 4

  /** A usable catalog: at least one question, and four answers on every question. */
  ghost predicate WellFormed(qs: seq<Question>) {
    |qs| > 0 && forall q :: q in qs ==> |q.answers| == AnswerCount
  }

  /** The answer a submission must match: the first one listed in the record. */
  function CorrectAnswer(q: Question): string
    requires |q.answers| > 0
  {
    q.answers[0]
  }

  /** `Math.min(a, b)` on the platform's integers. */
  function Min(a: int, b: int): int {
    if a <= b then a else b
  }

  /** Number of questions in one round for a catalog of `n` questions:
      `min((n + 1) / 2, 3)`, fixed once when the screen is created. */
  function RoundLength(n: nat): (k: nat)
    ensures k <= 3 && k <= n
    ensures n > 0 ==> k > 0
    // k is half the catalog rounded up, unless that exceeds the cap of three
    ensures (n <= 2 * k <= n + 1) || (k == 3 && 2 * k < n)
  {
    Min((n + 1) / 2, 3)
  }

  /** A catalog entry: the correct answer first, then the three wrong ones. */
  function Entry(text: string, correct: string, wrong1: string, wrong2: string, wrong3: string): (q: Question)
    ensures |q.answers| == AnswerCount && CorrectAnswer(q) == correct
  {
    Question(text, [correct, wrong1, wrong2, wrong3])
  }

  /** The catalog the game ships with. */
  const Catalog: seq<Question> := [
    Entry("Aureolin is a shade of what color?", "Yellow", "Green", "Red", "Blue"),
    Entry("Which planet in the milky way is the hottest?", "Venus", "Mars", "Mercury", "Jupiter"),
    Entry("What is the 4th letter of the greek alphabet?", "Delta", "Alpha", "Beta", "Omega"),
    Entry("What company was initially known as Blue Ribbon Sports?", "Nike", "Puma", "Adidas", "Vans"),
    Entry("What is the largest spanish-speaking city?", "Mexico City", "Madrid", "Buenos Aires", "Barcelona"),
    Entry("In What country is the chernobyl nuclear plant located?", "Ukraine", "Russia", "Slovakia", "Slovenia"),
    Entry("In What country was Elon Musk born?", "South Africa", "United States Of America", "Sweden", "Britain"),
    Entry("How many hearts does an Octopus have?", "3", "2", "8", "6"),
    Entry("Where is the strongest human muscle located?", "jaw", "hip", "shoulder", "backbone"),
    Entry("What is the capital of Canada?", "Ottawa", "Toronto", "Vancouver", "Montreal"),
    Entry("Pink Ladies and Granny Smiths are types of what fruit?", "Apple", "Berry", "Orange", "Mango"),
    Entry("What color are Mickey Mouse shoes?", "Yellow", "Black", "White", "Red"),
    Entry("What country drinks the most coffee?", "Finland", "Britain", "Spain", "Portugal"),
    Entry("What colors is the flag of the United Nations?", "Blue and White", "White and Green", "Green and Blue", "Black and White"),
    Entry("What is acrophobia a fear of?", "Flying", "Swimming", "Cycling", "Sleeping"),
    Entry("Which planet has the most moons?", "Saturn", "Pluto", "Jupiter", "Mars"),
    Entry("What sports car company manufactures the 911?", "Porsche", "Buggati", "Ferrari", "BMW")
  ]

  /** The shipped catalog is usable and yields rounds of three questions. */
  lemma CatalogFacts()
    ensures WellFormed(Catalog)
    ensures |Catalog| == 17 && RoundLength(|Catalog|) == 3
  {
    forall i | 0 <= i < |Catalog|
      ensures |Catalog[i].answers| == AnswerCount
    {
    }
    forall q | q in Catalog
      ensures |q.answers| == AnswerCount
    {
      var i :| 0 <= i < |Catalog| && Catalog[i] == q;
    }
  }
}
