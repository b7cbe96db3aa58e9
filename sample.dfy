/** The sample document the app seeds on first run. */
module Sample {
  import Files

  /** The document written on first run, when the stored list is empty. */
  const SampleFile: Files.File := Files.File("sample-chainsaw-man", SampleName, SampleContent, 1024)

  const SampleName: string := "chainsaw_man_info.txt"

  const SampleContent: string :=
    "Chainsaw Man (チェンソーマン)\n" +
    "\n" +
    "Overview:\n" +
    "Chainsaw Man is a Japanese manga series written and illustrated by Tatsuki Fujimoto. Part 1 was serialized in Weekly Shonen Jump from 2019 to 2021, and Part 2 has been serializing in Shonen Jump+ since 2022.\n" +
    "\n" +
    "Main Characters:\n" +
    "- Denji: The protagonist. He gains the ability to transform into Chainsaw Man after making a contract with Pochita, the Chainsaw Devil.\n" +
    "- Makima: Leader of Public Safety Devil Hunter Special Division 4. The Control Devil.\n" +
    "- Power: A Blood Fiend. Denji's companion and partner.\n" +
    "- Aki Hayakawa: A Devil Hunter working for Public Safety. Denji's senior and mentor.\n" +
    "\n" +
    "Plot Summary:\n" +
    "Denji is a poor young man who works as a Devil Hunter with Pochita, the Chainsaw Devil, to pay off his father's debt. One day, he is killed by the Zombie Devil, but Pochita becomes Denji's heart, reviving him as Chainsaw Man. After this transformation, he is recruited by Makima to join Public Safety and begins a new life as a Devil Hunter.\n" +
    "\n" +
    "Key Features:\n" +
    "- Unique storytelling with unpredictable plot developments\n" +
    "- Perfect blend of dark fantasy and action\n" +
    "- Deep character psychology and emotional depth\n" +
    "- Social commentary and philosophical themes\n" +
    "\n" +
    "Media Adaptations:\n" +
    "In October 2022, an anime adaptation produced by MAPPA was released. It gained massive attention for its exceptional animation quality and direction.\n" +
    "\n" +
    "Awards and Recognition:\n" +
    "- Winner of the 66th Shogakukan Manga Award (Shonen Category)\n" +
    "- Ranked #1 in the Next Breakthrough Manga Rankings\n" +
    "- Ranked #1 in \"Kono Manga ga Sugoi!\" 2021 (Male Readers Category)"
}
