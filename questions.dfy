/** The fixed question configuration of the board: five categories (the columns),
    five point tiers (the rows) and the table of 25 questions indexed by both. */
module Questions {
  import opened Wrappers

  datatype QuestionData = QuestionData(category: string, points: int, question: string, answer: string)

  /** `categories`, in column order. */
  const Categories: seq<string> := ["HTML", "CSS", "JavaScript", "React", "TypeScript"]

  /** `pointValues`, in row order. */
  const PointValues: seq<int> := [100, 200, 300, 400, 500]

  /** `questionsData[category][points]`. */
  const QuestionsData: map<string, map<int, QuestionData>> := map[
    "HTML" := map[
      100 := QuestionData("HTML", 100, "This tag is used to create a hyperlink", "What is <a>?"),
      200 := QuestionData("HTML", 200, "This meta tag ensures proper rendering on mobile devices", "What is viewport?"),
      300 := QuestionData("HTML", 300, "This semantic element represents a standalone section of content", "What is <article>?"),
      400 := QuestionData("HTML", 400, "This attribute is used to specify custom data attributes", "What is data-*?"),
      500 := QuestionData("HTML", 500, "This element is used to draw graphics on the webpage", "What is <canvas>?")
    ],
    "CSS" := map[
      100 := QuestionData("CSS", 100, "This property is used to change the text color", "What is color?"),
      200 := QuestionData("CSS", 200, "This display value makes an element disappear from the page", "What is none?"),
      300 := QuestionData("CSS", 300, "This positioning value removes an element from the normal document flow", "What is absolute?"),
      400 := QuestionData("CSS", 400, "This unit is relative to the font-size of the root element", "What is rem?"),
      500 := QuestionData("CSS", 500, "This property is used to create a grid container", "What is display: grid?")
    ],
    "JavaScript" := map[
      100 := QuestionData("JavaScript", 100, "This operator is used for strict equality comparison", "What is ==="),
      200 := QuestionData("JavaScript", 200, "This method creates a new array with the results of calling a function for every array element", "What is map()?"),
      300 := QuestionData("JavaScript", 300, "This keyword is used to declare variables that cannot be reassigned", "What is const?"),
      400 := QuestionData("JavaScript", 400, "This object method creates a shallow copy of an array", "What is Object.assign()?"),
      500 := QuestionData("JavaScript", 500, "This feature allows you to extract array elements or object properties into distinct variables", "What is destructuring?")
    ],
    "React" := map[
      100 := QuestionData("React", 100, "This hook is used to handle side effects in function components", "What is useEffect?"),
      200 := QuestionData("React", 200, "This method is called just before a component is unmounted", "What is componentWillUnmount?"),
      300 := QuestionData("React", 300, "This prop is used to pass content between component tags", "What is children?"),
      400 := QuestionData("React", 400, "This technique is used to prevent unnecessary re-renders of components", "What is memoization?"),
      500 := QuestionData("React", 500, "This pattern is used to share behavior between components", "What is render props?")
    ],
    "TypeScript" := map[
      100 := QuestionData("TypeScript", 100, "This type represents a value that could be one of several types", "What is union type?"),
      200 := QuestionData("TypeScript", 200, "This keyword is used to define a custom type", "What is interface?"),
      300 := QuestionData("TypeScript", 300, "This operator is used to assert a type", "What is as?"),
      400 := QuestionData("TypeScript", 400, "This utility type makes all properties of a type optional", "What is Partial<T>?"),
      500 := QuestionData("TypeScript", 500, "This feature allows you to create a type that depends on another type", "What is generics?")
    ]
  ]

  /** There are five categories and no two are the same. */
  lemma CategoriesDistinct()
    ensures |Categories| == 5 && Distinct(Categories)
  {
  }

  /** The point tiers are 100 to 500 in steps of 100, strictly increasing. */
  lemma PointValuesIncreasing()
    ensures |PointValues| == 5
    ensures forall i :: 0 <= i < 5 ==> PointValues[i] == 100 * (i + 1)
    ensures forall i, j :: 0 <= i < j < 5 ==> PointValues[i] < PointValues[j]
  {
  }

  /** Every (category, points) pair of the configuration has an entry, and that entry
      names its own category and points. */
  lemma QuestionsDataComplete()
    ensures forall c, p :: c in Categories && p in PointValues ==>
      c in QuestionsData && p in QuestionsData[c]
      && QuestionsData[c][p].category == c && QuestionsData[c][p].points == p
  {
    forall c, p | c in Categories && p in PointValues
      ensures c in QuestionsData && p in QuestionsData[c]
      ensures QuestionsData[c][p].category == c && QuestionsData[c][p].points == p
    {
      RowComplete(c);
    }
  }

  /** One row of the table holds the five tiers of its category. */
  lemma RowComplete(c: string)
    requires c in Categories
    ensures c in QuestionsData
    ensures forall p :: p in PointValues ==> p in QuestionsData[c] && QuestionsData[c][p].category == c && QuestionsData[c][p].points == p
  {
  }

  /** The table has no category beyond `Categories` and no point tier beyond
      `PointValues`. */
  lemma QuestionsDataNoExtra()
    ensures forall c :: c in QuestionsData <==> c in Categories
    ensures forall c, p :: c in QuestionsData && p in QuestionsData[c] ==> p in PointValues
  {
    forall c | c in QuestionsData
      ensures forall p :: p in QuestionsData[c] ==> p in PointValues
    {
      RowNoExtra(c);
    }
  }

  /** One row of the table holds no tier beyond `PointValues`. */
  lemma RowNoExtra(c: string)
    requires c in QuestionsData
    ensures forall p :: p in QuestionsData[c] ==> p in PointValues
  {
  }

  /** `questionsData[c][p]` for a configured pair: the entry names that pair. */
  function Question(c: string, p: int): (q: QuestionData)
    requires c in Categories && p in PointValues
    ensures q.category == c && q.points == p
  {
    QuestionsDataComplete();
    QuestionsData[c][p]
  }

  /** The table has a row for a category exactly when the category is configured. */
  lemma CategoryInTable(c: string)
    ensures c in QuestionsData <==> c in Categories
  {
    QuestionsDataNoExtra();
  }
}
